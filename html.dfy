/**
 * The parsed document, as the HTML parser hands it to the content filter:
 * a flat sequence of nodes, visited without regard to the hierarchy.
 * Only tags matter to the filter; text and comments are carried along.
 */
module Html {
  import opened Base

  /** An attribute may be present without a value (`<img src>`), hence the inner Option. */
  type Attributes = map<string, Option<string>>

  datatype Node =
    | Tag(name: string, attrs: Attributes)
    | Raw(text: string)
    | Comment(text: string)

  /** The node is a tag whose name is exactly `name` (case-sensitive, as produced by the parser). */
  predicate IsTagNamed(n: Node, name: string) {
    n.Tag? && n.name == name
  }

  /** The value of the `src` attribute, absent both when there is no such attribute and when it has no value. */
  function Src(n: Node): (r: Option<string>)
    requires n.Tag?
    ensures r.Some? <==> "src" in n.attrs && n.attrs["src"].Some?
    ensures r.Some? ==> n.attrs["src"] == r
  {
    if "src" in n.attrs then n.attrs["src"] else None
  }

  /** Number of tag nodes named `name`. */
  function TagCount(nodes: seq<Node>, name: string): nat
  {
    if nodes == [] then 0
    else
      var last := nodes[|nodes| - 1];
      TagCount(nodes[..|nodes| - 1], name) + (if IsTagNamed(last, name) then 1 else 0)
  }

  /** The count is zero exactly when no tag of that name occurs. */
  lemma {:induction false} TagCountZero(nodes: seq<Node>, name: string)
    ensures TagCount(nodes, name) == 0 <==> forall i :: 0 <= i < |nodes| ==> !IsTagNamed(nodes[i], name)
  {
    if nodes != [] {
      var init := nodes[..|nodes| - 1];
      TagCountZero(init, name);
      assert forall i :: 0 <= i < |init| ==> init[i] == nodes[i];
    }
  }

  /** Extending the visited prefix by one node adds that node to the count. */
  lemma TagCountStep(nodes: seq<Node>, i: nat, name: string)
    requires i < |nodes|
    ensures TagCount(nodes[..i + 1], name) == TagCount(nodes[..i], name) + (if IsTagNamed(nodes[i], name) then 1 else 0)
  {
    assert nodes[..i + 1][..i] == nodes[..i];
  }

  /** `counts` maps exactly the tag names occurring in `visited` to their number of occurrences. */
  ghost predicate Counted(counts: map<string, nat>, visited: seq<Node>) {
    forall name ::
      && (name in counts <==> TagCount(visited, name) > 0)
      && (name in counts ==> counts[name] == TagCount(visited, name))
  }

  /** `*counts.entry(tag).or_insert(0) += 1` on every tag keeps the map counting the visited prefix. */
  lemma CountedStep(counts: map<string, nat>, nodes: seq<Node>, i: nat)
    requires i < |nodes| && Counted(counts, nodes[..i])
    ensures Counted(if nodes[i].Tag? then counts[nodes[i].name := CountOrZero(counts, nodes[i].name) + 1] else counts,
                    nodes[..i + 1])
  {
    forall name {
      TagCountStep(nodes, i, name);
    }
  }

  /**
   * `counts.get(name).unwrap_or(&0)`: an absent name reads as zero, and
   * reading a map that counts a document gives the number of occurrences.
   */
  function CountOrZero(counts: map<string, nat>, name: string): (r: nat)
    ensures name !in counts ==> r == 0
    ensures forall visited :: Counted(counts, visited) ==> r == TagCount(visited, name)
  {
    if name in counts then counts[name] else 0
  }
}
