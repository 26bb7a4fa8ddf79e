/**
 An immutable snapshot of a directory tree. A directory holds its entries in
 the order `os.listdir` reports them; nothing in the type forces the names of
 one directory apart, so `WellFormed` states what a real filesystem guarantees.
 */
module FileTree {
  import opened Types
  import opened Paths

  datatype Node = File(content: string) | Dir(entries: seq<Entry>)
  datatype Entry = Entry(name: string, node: Node)

  /** The node a directory holds under `name` (the first, should names repeat). */
  function Lookup(entries: seq<Entry>, name: string): (r: Option<Node>)
    ensures r.None? <==> forall i :: 0 <= i < |entries| ==> entries[i].name != name
    ensures r.Some? ==> exists i :: 0 <= i < |entries| && entries[i] == Entry(name, r.value)
  {
    if |entries| == 0 then None
    else if entries[0].name == name then Some(entries[0].node)
    else
      var r := Lookup(entries[1..], name);
      assert r.Some? ==> entries[1..][0] in entries;
      r
  }

  predicate DistinctNames(entries: seq<Entry>) {
    forall i, j :: 0 <= i < j < |entries| ==> entries[i].name != entries[j].name
  }

  /** Every directory of the tree has distinct, valid entry names. */
  predicate WellFormed(n: Node) {
    match n
    case File(_) => true
    case Dir(entries) =>
      && DistinctNames(entries)
      && forall i :: 0 <= i < |entries| ==> ValidName(entries[i].name) && WellFormed(entries[i].node)
  }

  /** Some regular file named `name` lies somewhere below `n`, at any depth. */
  predicate HasFile(n: Node, name: string) {
    match n
    case File(_) => false
    case Dir(entries) =>
      exists i :: 0 <= i < |entries| &&
        ((entries[i].name == name && entries[i].node.File?) || HasFile(entries[i].node, name))
  }

  /** The lookup found a regular file. */
  predicate IsFile(r: Option<Node>) {
    r.Some? && r.value.File?
  }

  /** A regular file named `name` is one of the entries themselves. */
  predicate FileAmong(entries: seq<Entry>, name: string) {
    exists i :: 0 <= i < |entries| && entries[i].name == name && entries[i].node.File?
  }

  /** A regular file is among the entries when it is the first or among the rest. */
  lemma {:induction false} FileAmongSplit(entries: seq<Entry>, name: string)
    requires |entries| > 0
    ensures FileAmong(entries, name) <==>
      (entries[0].name == name && entries[0].node.File?) || FileAmong(entries[1..], name)
  {
    var rest := entries[1..];
    if FileAmong(entries, name) && !(entries[0].name == name && entries[0].node.File?) {
      var i :| 0 <= i < |entries| && entries[i].name == name && entries[i].node.File?;
      assert rest[i - 1] == entries[i];
    }
    if FileAmong(rest, name) {
      var i :| 0 <= i < |rest| && rest[i].name == name && rest[i].node.File?;
      assert entries[i + 1] == rest[i];
    }
  }

  /** How many regular files named `name` lie below `n`, at any depth. */
  function CountFiles(n: Node, name: string): nat
    decreases n, 1
  {
    match n
    case File(_) => 0
    case Dir(entries) => CountIn(entries, name)
  }

  /** `CountFiles` summed over one listing: the entries themselves and what lies below each. */
  function CountIn(entries: seq<Entry>, name: string): nat
    decreases entries, 0
  {
    if |entries| == 0 then 0
    else
      (if entries[0].name == name && entries[0].node.File? then 1 else 0)
      + CountFiles(entries[0].node, name) + CountIn(entries[1..], name)
  }

  /** In a directory with distinct names, looking up an entry's name finds that entry. */
  lemma {:induction false} LookupDistinct(entries: seq<Entry>, i: nat)
    requires DistinctNames(entries) && i < |entries|
    ensures Lookup(entries, entries[i].name) == Some(entries[i].node)
  {
    var r := Lookup(entries, entries[i].name);
    var k :| 0 <= k < |entries| && entries[k] == Entry(entries[i].name, r.value);
    assert k == i;
  }
}
