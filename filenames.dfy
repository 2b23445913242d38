/**
 * Derivation of the local output file name from a URL (`filename_for_url`),
 * with the part of the platform path library it relies on (`Path::file_name`
 * for a path with `/` separators) written out.
 */
module FileNames {
  import opened Base
  import opened Web

  /** The pieces of `s` between `/` separators; `k` separators give `k + 1` pieces. */
  function Split(s: string): (parts: seq<string>)
    ensures |parts| >= 1
  {
    if s == [] then [[]]
    else
      var rest := Split(s[1..]);
      if s[0] == '/' then [[]] + rest else [[s[0]] + rest[0]] + rest[1..]
  }

  /** The inverse of Split: the pieces put back together with `/` between them. */
  function Join(parts: seq<string>): string
    requires |parts| >= 1
  {
    if |parts| == 1 then parts[0] else parts[0] + "/" + Join(parts[1..])
  }

  /** Splitting loses nothing: joining the pieces gives the path back, and no piece holds a separator. */
  lemma {:induction false} SplitJoin(s: string)
    ensures Join(Split(s)) == s
    ensures forall p :: p in Split(s) ==> '/' !in p
  {
    if s != [] {
      var rest := Split(s[1..]);
      SplitJoin(s[1..]);
      if s[0] == '/' {
        assert Split(s) == [[]] + rest;
        assert Join(Split(s)) == [] + "/" + Join(rest);
        assert s == [s[0]] + s[1..];
      } else {
        assert Split(s) == [[s[0]] + rest[0]] + rest[1..];
        if |rest| == 1 {
          assert Join(Split(s)) == [s[0]] + rest[0];
        } else {
          assert Join(Split(s)) == ([s[0]] + rest[0]) + "/" + Join(rest[1..]);
          assert Join(rest) == rest[0] + "/" + Join(rest[1..]);
        }
        assert s == [s[0]] + s[1..];
        forall p | p in Split(s) ensures '/' !in p {
          if p == [s[0]] + rest[0] {
            assert rest[0] in rest;
          } else {
            assert p in rest;
          }
        }
      }
    }
  }

  /** A string without separators is a single piece. */
  lemma {:induction false} SplitWithoutSeparator(s: string)
    requires '/' !in s
    ensures Split(s) == [s]
  {
    if s != [] {
      assert s[1..] == s[1..];
      SplitWithoutSeparator(s[1..]);
      assert [s[0]] + s[1..] == s;
    }
  }

  /** The piece before the first separator comes first, then the pieces of what follows it. */
  lemma {:induction false} SplitAtSeparator(a: string, b: string)
    requires '/' !in a
    ensures Split(a + "/" + b) == [a] + Split(b)
  {
    if a == [] {
      assert a + "/" + b == "/" + b;
      assert ("/" + b)[1..] == b;
    } else {
      assert (a + "/" + b)[1..] == a[1..] + "/" + b;
      SplitAtSeparator(a[1..], b);
      assert [a[0]] + a[1..] == a;
    }
  }

  /** A trailing separator adds one empty piece and changes nothing else. */
  lemma {:induction false} SplitTrailingSlash(s: string)
    ensures Split(s + "/") == Split(s) + [[]]
  {
    if s == [] {
      assert s + "/" == "/";
      assert Split("/") == [[]] + Split([]);
    } else {
      assert (s + "/")[1..] == s[1..] + "/";
      SplitTrailingSlash(s[1..]);
    }
  }

  /**
   * The normal components among the pieces: empty pieces (repeated or
   * trailing separators) and `.` pieces are dropped, as the path library's
   * component iterator does.
   */
  function Normal(parts: seq<string>): (r: seq<string>)
    ensures |r| <= |parts|
    ensures forall c :: c in r <==> c in parts && c != [] && c != "."
  {
    if parts == [] then []
    else (if parts[0] == [] || parts[0] == "." then [] else [parts[0]]) + Normal(parts[1..])
  }

  lemma {:induction false} NormalAppend(a: seq<string>, b: seq<string>)
    ensures Normal(a + b) == Normal(a) + Normal(b)
  {
    if a == [] {
      assert a + b == b;
    } else {
      assert (a + b)[1..] == a[1..] + b;
      NormalAppend(a[1..], b);
    }
  }

  function Components(path: string): seq<string>
  {
    Normal(Split(path))
  }

  /**
   * `Path::file_name`: the last normal component, or None when there is no
   * component left or the path ends in `..`.
   */
  function FileName(path: string): (r: Option<string>)
    ensures r.Some? ==> r.value in Components(path) && r.value != [] && r.value != "." && r.value != ".."
    ensures Components(path) == [] ==> r.None?
  {
    var c := Components(path);
    if c == [] || c[|c| - 1] == ".." then None else Some(c[|c| - 1])
  }

  /** The pieces of `p/b` are those of `p` followed by those of `b`. */
  lemma {:induction false} SplitConcat(p: string, b: string)
    ensures Split(p + "/" + b) == Split(p) + Split(b)
  {
    var s := p + "/" + b;
    if p == [] {
      assert s[0] == '/' && s[1..] == b;
      assert Split(s) == [[]] + Split(b);
    } else {
      assert s[0] == p[0] && s[1..] == p[1..] + "/" + b;
      SplitConcat(p[1..], b);
      var tail := Split(p[1..]);
      var both := tail + Split(b);
      assert Split(s[1..]) == both;
      if p[0] == '/' {
        assert Split(s) == [[]] + both;
        assert Split(p) == [[]] + tail;
      } else {
        assert both[0] == tail[0] && both[1..] == tail[1..] + Split(b);
        assert Split(s) == [[p[0]] + both[0]] + both[1..];
        assert Split(p) == [[p[0]] + tail[0]] + tail[1..];
      }
    }
  }

  /** Whatever comes before it, a last piece that is a plain name other than `..` is the file name. */
  lemma LastSegmentIsFileName(p: string, a: string)
    requires Plain(a) && a != ".."
    ensures Components(p + "/" + a) == Components(p) + [a]
    ensures FileName(p + "/" + a) == Some(a)
  {
    SplitConcat(p, a);
    SplitWithoutSeparator(a);
    NormalAppend(Split(p), [a]);
    assert Normal([a]) == [a] by {
      assert [a][1..] == [];
    }
  }

  /** A path ending in `..` has no file name, whatever comes before it. */
  lemma ParentEndHasNoFileName(p: string)
    ensures FileName(p + "/..") == None
  {
    var dots := "..";
    assert p + "/.." == p + "/" + dots;
    SplitConcat(p, dots);
    SplitWithoutSeparator(dots);
    NormalAppend(Split(p), [dots]);
    assert Normal([dots]) == [dots] by {
      assert [dots][1..] == [];
    }
    assert Components(p + "/..") == Components(p) + [dots];
  }

  /** A trailing `.` piece is skipped: `a/.` has the file name of `a`. */
  lemma CurrentEndKeepsFileName(p: string)
    ensures FileName(p + "/.") == FileName(p)
  {
    var dot := ".";
    assert p + "/." == p + "/" + dot;
    SplitConcat(p, dot);
    SplitWithoutSeparator(dot);
    NormalAppend(Split(p), [dot]);
    assert Normal([dot]) == [] by {
      assert [dot][1..] == [];
    }
    assert Components(p + "/.") == Components(p);
  }

  /** A file name is a single non-empty piece of the path: no separator, and neither `.` nor `..`. */
  lemma FileNameIsPiece(path: string)
    requires FileName(path).Some?
    ensures var f := FileName(path).value;
      f in Split(path) && f != [] && f != "." && f != ".." && '/' !in f
  {
    SplitJoin(path);
    var c := Components(path);
    assert c[|c| - 1] in c;
  }

  /** A path made only of separators (the root, or the empty path) has no file name. */
  lemma {:induction false} SlashesHaveNoFileName(path: string)
    requires forall i :: 0 <= i < |path| ==> path[i] == '/'
    ensures Components(path) == []
    ensures FileName(path).None?
  {
    if path != [] {
      SlashesHaveNoFileName(path[1..]);
      assert Split(path) == [[]] + Split(path[1..]);
    }
  }

  /** A trailing separator does not change the file name: `/a/b/` still names `b`. */
  lemma TrailingSlashKeepsFileName(path: string)
    ensures FileName(path + "/") == FileName(path)
  {
    SplitTrailingSlash(path);
    NormalAppend(Split(path), [[]]);
    assert Normal([[]]) == [];
    assert Components(path + "/") == Components(path);
  }

  /** `path.replace("/", "_")` */
  function Underscored(s: string): (r: string)
    ensures |r| == |s| && '/' !in r
    ensures forall i :: 0 <= i < |s| && s[i] != '/' ==> r[i] == s[i]
    ensures forall i :: 0 <= i < |s| && s[i] == '/' ==> r[i] == '_'
  {
    seq(|s|, i requires 0 <= i < |s| => if s[i] == '/' then '_' else s[i])
  }

  /** Underscoring works piece by piece. */
  lemma UnderscoredAppend(a: string, b: string)
    ensures Underscored(a + b) == Underscored(a) + Underscored(b)
  {
    assert forall i :: 0 <= i < |b| ==> (a + b)[|a| + i] == b[i];
  }

  /**
   * `filename_for_url`: the host followed by the path with every separator
   * turned into an underscore when the path has a file name, and the host
   * followed by `.html` otherwise. The host must be present: the source
   * unwraps it.
   */
  function FilenameForUrl(url: Url): (name: string)
    requires url.host.Some?
    ensures |name| >= |url.host.value| && name[..|url.host.value|] == url.host.value
    ensures '/' !in name[|url.host.value|..]
    ensures FileName(url.path).Some? ==> |name| == |url.host.value| + |url.path|
    ensures FileName(url.path).None? ==> name[|url.host.value|..] == ".html"
  {
    if FileName(url.path).None? then url.host.value + ".html"
    else url.host.value + Underscored(url.path)
  }

  /**
   * With a file name, the result is the host, then the path character for
   * character except that every separator has become an underscore; so its
   * length is |host| + |path| and it has no separator after the host.
   */
  lemma NamedPathFilename(url: Url)
    requires url.host.Some? && FileName(url.path).Some?
    ensures var name, host := FilenameForUrl(url), url.host.value;
      && |name| == |host| + |url.path|
      && name[..|host|] == host
      && (forall i :: 0 <= i < |url.path| ==>
            name[|host| + i] == (if url.path[i] == '/' then '_' else url.path[i]))
      && '/' !in name[|host|..]
  {
    var name, host := FilenameForUrl(url), url.host.value;
    assert name[|host|..] == Underscored(url.path);
  }

  /** Without a file name, the result is the host followed by `.html`. */
  lemma NamelessPathFilename(url: Url)
    requires url.host.Some? && FileName(url.path).None?
    ensures FilenameForUrl(url) == url.host.value + ".html"
    ensures '/' !in FilenameForUrl(url)[|url.host.value|..]
  {
    assert FilenameForUrl(url)[|url.host.value|..] == ".html";
  }

  /** `/a/b` with plain pieces `a` and `b` splits into the empty piece, `a` and `b`, and has the components `a` and `b`. */
  lemma TwoComponents(a: string, b: string)
    requires Plain(a) && Plain(b)
    ensures Split("/" + a + "/" + b) == [[], a, b]
    ensures Components("/" + a + "/" + b) == [a, b]
  {
    SplitWithoutSeparator(b);
    SplitAtSeparator(a, b);
    SplitAtSeparator("", a + "/" + b);
    assert "" + "/" + (a + "/" + b) == "/" + a + "/" + b;
    assert Normal([b]) == [b] by {
      assert [b][1..] == [];
    }
    assert Normal([a, b]) == [a] + Normal([b]) by {
      assert [a, b][1..] == [b];
    }
    assert Normal([[], a, b]) == Normal([a, b]) by {
      assert [[], a, b][1..] == [a, b];
    }
  }

  /** `http://host/` is saved as `host.html`. */
  lemma RootFilename(host: string, rest: string)
    ensures FilenameForUrl(Url(Some(host), "/", rest)) == host + ".html"
  {
    SlashesHaveNoFileName("/");
  }

  /** A piece that is neither empty nor `.` and holds no separator. */
  predicate Plain(a: string) {
    a != [] && a != "." && '/' !in a
  }

  /** A path without separators is left as it is. */
  lemma UnderscoredPlain(s: string)
    requires '/' !in s
    ensures Underscored(s) == s
  {
  }

  /** `/a` has the single component `a`. */
  lemma OneComponent(a: string)
    requires Plain(a)
    ensures Components("/" + a) == [a]
  {
    SplitWithoutSeparator(a);
    SplitAtSeparator("", a);
    assert "" + "/" + a == "/" + a;
    assert Normal([a]) == [a] by {
      assert [a][1..] == [];
    }
    assert Normal([[], a]) == Normal([a]) by {
      assert [[], a][1..] == [a];
    }
  }

  /**
   * A URL whose path ends in a plain name other than `..` is saved as the
   * host followed by the whole path with every separator turned into an
   * underscore, whatever comes before that name.
   */
  lemma LastSegmentFilename(host: string, p: string, a: string, rest: string)
    requires Plain(a) && a != ".."
    ensures FilenameForUrl(Url(Some(host), p + "/" + a, rest)) == host + Underscored(p) + "_" + a
  {
    LastSegmentIsFileName(p, a);
    UnderscoredLast(p, a);
  }

  /** Underscoring `p/a` for a name `a` without separators gives `p` underscored, then `_a`. */
  lemma UnderscoredLast(p: string, a: string)
    requires '/' !in a
    ensures Underscored(p + "/" + a) == Underscored(p) + "_" + a
  {
    var tail := "/" + a;
    assert p + "/" + a == p + tail;
    UnderscoredAppend(p, tail);
    UnderscoredAppend("/", a);
    UnderscoredPlain(a);
    assert Underscored("/") == "_";
  }

  /** `http://host/a/b` is saved as `host_a_b`, whatever follows the path. */
  lemma NestedFilename(host: string, a: string, b: string, rest: string)
    requires Plain(a) && Plain(b) && b != ".."
    ensures FilenameForUrl(Url(Some(host), "/" + a + "/" + b, rest)) == host + "_" + a + "_" + b
  {
    LastSegmentFilename(host, "/" + a, b, rest);
    UnderscoredAppend("/", a);
    UnderscoredPlain(a);
    assert Underscored("/") == "_";
  }

  /** `http://host/a/b/` still has the file name `b`, so it is saved as `host_a_b_`. */
  lemma DirectoryFilename(host: string, a: string, b: string, rest: string)
    requires Plain(a) && Plain(b) && b != ".."
    ensures FileName("/" + a + "/" + b + "/") == Some(b)
    ensures FilenameForUrl(Url(Some(host), "/" + a + "/" + b + "/", rest)) == host + "_" + a + "_" + b + "_"
  {
    var path := "/" + a + "/" + b;
    TwoComponents(a, b);
    TrailingSlashKeepsFileName(path);
    NestedFilename(host, a, b, rest);
    UnderscoredAppend(path, "/");
    assert Underscored("/") == "_";
  }

  /** `http://host/a` is saved as `host_a`, whatever follows the path. */
  lemma SingleFilename(host: string, a: string, rest: string)
    requires Plain(a) && a != ".."
    ensures FilenameForUrl(Url(Some(host), "/" + a, rest)) == host + "_" + a
  {
    OneComponent(a);
    UnderscoredAppend("/", a);
    UnderscoredPlain(a);
    assert Underscored("/") == "_";
  }

  /**
   * Output names are not unique: URLs that differ only outside the host and
   * path, or whose paths differ only by `/` against `_` (`/a/b` and `/a_b`),
   * share one file, and the task that writes last wins.
   */
  lemma NamesCollide(host: string, a: string, b: string, rest1: string, rest2: string)
    requires Plain(a) && Plain(b) && b != ".."
    ensures FilenameForUrl(Url(Some(host), "/" + a + "/" + b, rest1))
         == FilenameForUrl(Url(Some(host), "/" + a + "_" + b, rest2))
  {
    NestedFilename(host, a, b, rest1);
    var joined := a + "_" + b;
    assert Plain(joined) && joined != ".." by {
      assert |joined| >= 3;
    }
    SingleFilename(host, joined, rest2);
    Regroup(host, a, b);
  }

  /** The two groupings of the colliding path and name are the same strings. */
  lemma Regroup(host: string, a: string, b: string)
    ensures "/" + a + "_" + b == "/" + (a + "_" + b)
    ensures host + "_" + (a + "_" + b) == host + "_" + a + "_" + b
  {
  }
}
