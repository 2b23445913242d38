/**
 * The content filter of a fetched page (`filter_html`) and the image
 * rewriter it calls on every `img` tag (`rewrite_image`).
 */
module Filter {
  import opened Base
  import opened Html
  import opened Web
  import opened FileNames

  /** The bytes of `text/html`. */
  const TextHtml: seq<byte> := [0x74, 0x65, 0x78, 0x74, 0x2f, 0x68, 0x74, 0x6d, 0x6c]

  /** The content-type gate: the header is present and its bytes begin with `text/html` (case-sensitive, any suffix). */
  predicate IsHtml(contentType: Option<seq<byte>>): (b: bool)
    ensures b <==> contentType.Some? && |contentType.value| >= 9 && contentType.value[..9] == TextHtml
  {
    contentType.Some? && TextHtml <= contentType.value
  }

  /** The diagnostic summary of a page: its number of `a` tags and of `img` tags. */
  datatype Report = Report(links: nat, images: nat)

  /** What a filter hands back: the bytes to save, the discovered asset URLs, and the summary it printed, if any. */
  datatype Filtered = Filtered(body: seq<byte>, assets: seq<Url>, report: Option<Report>)

  // ---------------------------------------------------------------------------
  // The image rewriter

  /** The tags the rewriter changes: `img` tags whose `src` attribute has a value. */
  predicate Rewritable(n: Node) {
    IsTagNamed(n, "img") && Src(n).Some?
  }

  /**
   * Resolving the tag's `src` against the page neither fails nor yields a URL
   * without a host. The source unwraps both, so a page that breaks this
   * aborts the whole program.
   */
  predicate SrcResolves(resolve: Resolver, page: Url, n: Node) {
    n.Tag? && Src(n).Some? ==>
      resolve(page, Src(n).value).Some? && resolve(page, Src(n).value).value.host.Some?
  }

  /** Every `img` tag of the document resolves. */
  predicate ImagesResolve(resolve: Resolver, page: Url, nodes: seq<Node>) {
    forall i :: 0 <= i < |nodes| && IsTagNamed(nodes[i], "img") ==> SrcResolves(resolve, page, nodes[i])
  }

  /** Rewriting this response does not panic: if it is HTML and parses, all its images resolve. */
  predicate PageResolvable(env: Env, page: Url, resp: Response) {
    IsHtml(resp.contentType) && env.parse(env.text(resp.contentType, resp.body)).Some? ==>
      ImagesResolve(env.resolve, page, env.parse(env.text(resp.contentType, resp.body)).value)
  }

  /** The absolute URL the tag's `src` designates, resolved against the page. */
  function ResolvedSrc(resolve: Resolver, page: Url, n: Node): (url: Url)
    requires n.Tag? && Src(n).Some? && SrcResolves(resolve, page, n)
    ensures url.host.Some?
  {
    resolve(page, Src(n).value).value
  }

  /**
   * `rewrite_image`: the tag and the asset list are updated in place in the
   * source; here they go in and come back. A tag without a `src` value is
   * left alone; otherwise `src` now names the local file of the resolved
   * URL, and that URL is appended to the assets.
   */
  method RewriteImage(resolve: Resolver, page: Url, tag: Node, assets: seq<Url>)
    returns (tag': Node, assets': seq<Url>)
    requires tag.Tag? && SrcResolves(resolve, page, tag)
    ensures tag'.Tag? && tag'.name == tag.name
    ensures Src(tag).None? ==> tag' == tag && assets' == assets
    ensures Src(tag).Some? ==>
      var url := ResolvedSrc(resolve, page, tag);
      && assets' == assets + [url]
      && tag'.attrs == tag.attrs["src" := Some(FilenameForUrl(url))]
      && Src(tag') == Some(FilenameForUrl(url))
    ensures IsTagNamed(tag, "img") ==> tag' == RewriteNode(resolve, page, tag)
  {
    if "src" in tag.attrs && tag.attrs["src"].Some? {
      var src := tag.attrs["src"].value;
      var url := resolve(page, src).value;
      var dst := FilenameForUrl(url);
      tag' := tag.(attrs := tag.attrs["src" := Some(dst)]);
      assets' := assets + [url];
    } else {
      tag', assets' := tag, assets;
    }
  }

  // ---------------------------------------------------------------------------
  // What the node loop does, as functions of the parsed nodes

  /** One node after the loop has visited it with rewriting enabled. */
  function RewriteNode(resolve: Resolver, page: Url, n: Node): (r: Node)
    requires IsTagNamed(n, "img") ==> SrcResolves(resolve, page, n)
    ensures !Rewritable(n) ==> r == n
    ensures Rewritable(n) ==>
      && IsTagNamed(r, "img")
      && Src(r) == Some(FilenameForUrl(ResolvedSrc(resolve, page, n)))
      && (forall k :: k != "src" ==> (k in r.attrs <==> k in n.attrs))
      && (forall k :: k != "src" && k in n.attrs ==> r.attrs[k] == n.attrs[k])
  {
    if Rewritable(n) then n.(attrs := n.attrs["src" := Some(FilenameForUrl(ResolvedSrc(resolve, page, n)))])
    else n
  }

  /**
   * The document after a rewriting pass: every rewritable `img` now points at
   * the local file of its resolved source, keeping its name and its other
   * attributes; every other node is unchanged.
   */
  function Rewritten(resolve: Resolver, page: Url, nodes: seq<Node>): (r: seq<Node>)
    requires ImagesResolve(resolve, page, nodes)
    ensures |r| == |nodes|
    ensures forall i :: 0 <= i < |nodes| && !Rewritable(nodes[i]) ==> r[i] == nodes[i]
    ensures forall i :: 0 <= i < |nodes| && Rewritable(nodes[i]) ==>
      && IsTagNamed(r[i], "img")
      && Src(r[i]) == Some(FilenameForUrl(ResolvedSrc(resolve, page, nodes[i])))
      && (forall k :: k != "src" ==> (k in r[i].attrs <==> k in nodes[i].attrs))
      && (forall k :: k != "src" && k in nodes[i].attrs ==> r[i].attrs[k] == nodes[i].attrs[k])
  {
    seq(|nodes|, i requires 0 <= i < |nodes| => RewriteNode(resolve, page, nodes[i]))
  }

  /** The assets a rewriting pass discovers: one resolved URL per rewritable `img`, in node order. */
  function AssetsOf(resolve: Resolver, page: Url, nodes: seq<Node>): (assets: seq<Url>)
    requires ImagesResolve(resolve, page, nodes)
    ensures |assets| <= |nodes|
    ensures forall u :: u in assets ==> u.host.Some?
  {
    if nodes == [] then []
    else
      var init, last := nodes[..|nodes| - 1], nodes[|nodes| - 1];
      assert ImagesResolve(resolve, page, init) by {
        assert forall i :: 0 <= i < |init| ==> init[i] == nodes[i];
      }
      AssetsOf(resolve, page, init) + (if Rewritable(last) then [ResolvedSrc(resolve, page, last)] else [])
  }

  /** A prefix of a document whose images resolve has images that resolve. */
  lemma ImagesResolvePrefix(resolve: Resolver, page: Url, nodes: seq<Node>, i: nat)
    requires ImagesResolve(resolve, page, nodes) && i <= |nodes|
    ensures ImagesResolve(resolve, page, nodes[..i])
  {
    assert forall k :: 0 <= k < i ==> nodes[..i][k] == nodes[k];
  }

  /** Visiting one more node appends at most that node's asset. */
  lemma AssetsStep(resolve: Resolver, page: Url, nodes: seq<Node>, i: nat)
    requires ImagesResolve(resolve, page, nodes) && i < |nodes|
    ensures ImagesResolve(resolve, page, nodes[..i]) && ImagesResolve(resolve, page, nodes[..i + 1])
    ensures AssetsOf(resolve, page, nodes[..i + 1]) ==
      AssetsOf(resolve, page, nodes[..i]) + (if Rewritable(nodes[i]) then [ResolvedSrc(resolve, page, nodes[i])] else [])
  {
    ImagesResolvePrefix(resolve, page, nodes, i);
    ImagesResolvePrefix(resolve, page, nodes, i + 1);
    assert nodes[..i + 1][..i] == nodes[..i];
  }

  /** The positions of the rewritable `img` tags, in increasing order. */
  function ImagePositions(nodes: seq<Node>): (pos: seq<nat>)
    ensures forall k :: 0 <= k < |pos| ==> pos[k] < |nodes| && Rewritable(nodes[pos[k]])
    ensures forall k, l :: 0 <= k < l < |pos| ==> pos[k] < pos[l]
    ensures forall i :: 0 <= i < |nodes| && Rewritable(nodes[i]) ==> i in pos
  {
    if nodes == [] then []
    else
      var init := nodes[..|nodes| - 1];
      var pos := ImagePositions(init);
      assert forall i :: 0 <= i < |init| ==> init[i] == nodes[i];
      pos + (if Rewritable(nodes[|nodes| - 1]) then [|nodes| - 1] else [])
  }

  /** The k-th discovered asset is the resolved `src` of the k-th rewritable `img`, one asset per such tag. */
  lemma {:induction false} AssetsAtImages(resolve: Resolver, page: Url, nodes: seq<Node>)
    requires ImagesResolve(resolve, page, nodes)
    ensures var assets, pos := AssetsOf(resolve, page, nodes), ImagePositions(nodes);
      && |assets| == |pos|
      && forall k :: 0 <= k < |pos| ==> assets[k] == ResolvedSrc(resolve, page, nodes[pos[k]])
  {
    if nodes != [] {
      var init := nodes[..|nodes| - 1];
      assert forall i :: 0 <= i < |init| ==> init[i] == nodes[i];
      AssetsAtImages(resolve, page, init);
    }
  }

  /**
   * The k-th discovered asset is the resolved `src` of the k-th rewritable
   * `img`, and that tag's rewritten `src` is the asset's local file name:
   * exactly one asset per rewritable image, in node order.
   */
  lemma AssetsMatchImages(resolve: Resolver, page: Url, nodes: seq<Node>)
    requires ImagesResolve(resolve, page, nodes)
    ensures var assets, pos := AssetsOf(resolve, page, nodes), ImagePositions(nodes);
      && |assets| == |pos|
      && forall k :: 0 <= k < |pos| ==>
           && assets[k] == ResolvedSrc(resolve, page, nodes[pos[k]])
           && Src(Rewritten(resolve, page, nodes)[pos[k]]) == Some(FilenameForUrl(assets[k]))
  {
    AssetsAtImages(resolve, page, nodes);
  }

  // ---------------------------------------------------------------------------
  // The filter

  /**
   * What `filter_html` produces. A response that is not HTML passes through
   * untouched. Otherwise the decoded text is parsed; the summary gives the
   * `a` and `img` counts; with rewriting the saved bytes are the rewritten
   * document re-serialised and the assets those of its images, without it
   * the saved bytes are the decoded text itself and there are no assets.
   */
  function FilterHtmlSpec(env: Env, page: Url, resp: Response, rewrite: bool): (r: Outcome<Filtered>)
    requires rewrite ==> PageResolvable(env, page, resp)
    ensures !IsHtml(resp.contentType) ==> r == Ok(Filtered(resp.body, [], None))
    ensures IsHtml(resp.contentType) ==>
      (r.Err? <==> env.parse(env.text(resp.contentType, resp.body)).None?) && (r.Err? ==> r.error == ParseError)
    ensures r.Ok? && IsHtml(resp.contentType) ==> r.value.report.Some?
    ensures r.Ok? && !rewrite ==>
      && r.value.assets == []
      && r.value.body == (if IsHtml(resp.contentType) then env.utf8(env.text(resp.contentType, resp.body)) else resp.body)
    ensures r.Ok? ==> forall u :: u in r.value.assets ==> u.host.Some?
    ensures IsHtml(resp.contentType) && env.parse(env.text(resp.contentType, resp.body)).Some? ==>
      var nodes := env.parse(env.text(resp.contentType, resp.body)).value;
      && r.Ok?
      && r.value.report == Some(Report(TagCount(nodes, "a"), TagCount(nodes, "img")))
      && (rewrite ==>
            && r.value.assets == AssetsOf(env.resolve, page, nodes)
            && r.value.body == env.utf8(env.serialize(Rewritten(env.resolve, page, nodes))))
  {
    if !IsHtml(resp.contentType) then Ok(Filtered(resp.body, [], None))
    else
      var text := env.text(resp.contentType, resp.body);
      match env.parse(text)
      case None => Err(ParseError)
      case Some(nodes) =>
        var report := Report(TagCount(nodes, "a"), TagCount(nodes, "img"));
        if rewrite then
          Ok(Filtered(env.utf8(env.serialize(Rewritten(env.resolve, page, nodes))),
                      AssetsOf(env.resolve, page, nodes), Some(report)))
        else
          Ok(Filtered(env.utf8(text), [], Some(report)))
  }

  /** The document after the loop has visited its first `i` nodes. */
  function Visited(resolve: Resolver, page: Url, nodes: seq<Node>, i: nat, rewrite: bool): (r: seq<Node>)
    requires rewrite ==> ImagesResolve(resolve, page, nodes)
    ensures |r| == |nodes|
  {
    seq(|nodes|, k requires 0 <= k < |nodes| =>
      if rewrite && k < i then RewriteNode(resolve, page, nodes[k]) else nodes[k])
  }

  /** Visiting node `i` replaces it and nothing else. */
  lemma VisitedStep(resolve: Resolver, page: Url, nodes: seq<Node>, i: nat, rewrite: bool)
    requires rewrite ==> ImagesResolve(resolve, page, nodes)
    requires i < |nodes|
    ensures Visited(resolve, page, nodes, i, rewrite)[i] == nodes[i]
    ensures Visited(resolve, page, nodes, i + 1, rewrite) ==
      Visited(resolve, page, nodes, i, rewrite)[i := if rewrite then RewriteNode(resolve, page, nodes[i]) else nodes[i]]
  {
  }

  /** Once every node is visited, the document is the rewritten one, or the parsed one without rewriting. */
  lemma VisitedAll(resolve: Resolver, page: Url, nodes: seq<Node>, rewrite: bool)
    requires rewrite ==> ImagesResolve(resolve, page, nodes)
    ensures Visited(resolve, page, nodes, |nodes|, rewrite) == if rewrite then Rewritten(resolve, page, nodes) else nodes
  {
  }

  /**
   * The body of the node loop of `filter_html`: a tag bumps the count of its
   * name, and with rewriting an `img` tag goes through the rewriter.
   */
  method Visit(resolve: Resolver, page: Url, n: Node, counts: map<string, nat>, assets: seq<Url>, rewrite: bool)
    returns (n': Node, counts': map<string, nat>, assets': seq<Url>)
    requires rewrite && IsTagNamed(n, "img") ==> SrcResolves(resolve, page, n)
    ensures n' == if rewrite then RewriteNode(resolve, page, n) else n
    ensures counts' == if n.Tag? then counts[n.name := CountOrZero(counts, n.name) + 1] else counts
    ensures assets' == if rewrite && Rewritable(n) then assets + [ResolvedSrc(resolve, page, n)] else assets
  {
    n', counts', assets' := n, counts, assets;
    if n.Tag? {
      var tag := n.name;
      counts' := counts[tag := CountOrZero(counts, tag) + 1];
      if rewrite && tag == "img" {
        n', assets' := RewriteImage(resolve, page, n, assets);
      }
    }
  }

  /**
   * The pass of `filter_html` over the parsed nodes: it counts tags by name
   * in a map and, when rewriting, hands every `img` tag to the rewriter,
   * which updates the node in place and appends to the asset list.
   */
  method Scan(resolve: Resolver, page: Url, nodes: seq<Node>, dom: array<Node>, rewrite: bool)
    returns (counts: map<string, nat>, assets: seq<Url>)
    requires dom[..] == nodes
    requires rewrite ==> ImagesResolve(resolve, page, nodes)
    modifies dom
    ensures dom[..] == if rewrite then Rewritten(resolve, page, nodes) else nodes
    ensures Counted(counts, nodes)
    ensures assets == if rewrite then AssetsOf(resolve, page, nodes) else []
  {
    counts, assets := map[], [];
    if rewrite {
      ImagesResolvePrefix(resolve, page, nodes, 0);
    }
    assert dom[..] == Visited(resolve, page, nodes, 0, rewrite);
    for i := 0 to dom.Length
      invariant dom[..] == Visited(resolve, page, nodes, i, rewrite)
      invariant Counted(counts, nodes[..i])
      invariant !rewrite ==> assets == []
      invariant rewrite ==> ImagesResolve(resolve, page, nodes[..i]) && assets == AssetsOf(resolve, page, nodes[..i])
    {
      CountedStep(counts, nodes, i);
      if rewrite {
        AssetsStep(resolve, page, nodes, i);
      }
      VisitedStep(resolve, page, nodes, i, rewrite);
      var n, c, a := Visit(resolve, page, dom[i], counts, assets, rewrite);
      dom[i], counts, assets := n, c, a;
    }
    assert nodes[..dom.Length] == nodes;
    VisitedAll(resolve, page, nodes, rewrite);
  }

  /**
   * `filter_html`: non-HTML passes through, HTML is decoded and parsed, the
   * nodes are copied into a mutable document and scanned, and the summary
   * and the saved bytes are taken from the counts and the document.
   */
  method FilterHtml(env: Env, page: Url, resp: Response, rewrite: bool) returns (r: Outcome<Filtered>)
    requires rewrite ==> PageResolvable(env, page, resp)
    ensures r == FilterHtmlSpec(env, page, resp, rewrite)
  {
    if !IsHtml(resp.contentType) {
      return Ok(Filtered(resp.body, [], None));
    }
    var body := env.text(resp.contentType, resp.body);
    var parsed := env.parse(body);
    if parsed.None? {
      return Err(ParseError);
    }
    var nodes := parsed.value;
    var dom := new Node[|nodes|](i requires 0 <= i < |nodes| => nodes[i]);
    var counts, assets := Scan(env.resolve, page, nodes, dom, rewrite);
    var report := Report(CountOrZero(counts, "a"), CountOrZero(counts, "img"));
    if rewrite {
      r := Ok(Filtered(env.utf8(env.serialize(dom[..])), assets, Some(report)));
    } else {
      r := Ok(Filtered(env.utf8(body), [], Some(report)));
    }
  }
}
