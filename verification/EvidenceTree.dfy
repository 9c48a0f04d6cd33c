/**
 The evidence tree of `rr_validator.py`: the compiled expectations are a JSON tree,
 and `evidence_nodes` yields its outermost sourced objects with their paths.
 */
module EvidenceTree {
  import opened Wrappers

  datatype Entry = Entry(key: string, value: Json)

  datatype Json = Scalar(text: string) | Text(text: string) | List(items: seq<Json>) | Dict(entries: seq<Entry>)

  datatype Node = Node(path: seq<string>, source: string, desired: Json)

  function Digit(d: nat): char
    requires d < 10
  {
    "0123456789"[d]
  }

  /** `str(index)`. */
  function Decimal(n: nat): (s: string)
    ensures s != ""
  {
    (if n < 10 then "" else Decimal(n / 10)) + [Digit(n % 10)]
  }

  /** What the recursion descends into: the items of an object, or of a list under their indices. */
  function Children(v: Json): (cs: seq<Entry>)
    ensures forall c <- cs :: c.value < v
  {
    match v
    case Dict(entries) => entries
    case List(items) => seq(|items|, i requires 0 <= i < |items| => Entry(Decimal(i), items[i]))
    case _ => []
  }

  function Find(cs: seq<Entry>, key: string): (v: Option<Json>)
    ensures v.Some? ==> exists c <- cs :: c.key == key && c.value == v.value
    ensures v.None? ==> forall c <- cs :: c.key != key
  {
    if cs == [] then None else if cs[0].key == key then Some(cs[0].value) else Find(cs[1..], key)
  }

  /** An object with a textual "source". */
  predicate Sourced(v: Json) {
    v.Dict? && Find(v.entries, "source").Some? && Find(v.entries, "source").value.Text?
  }

  function Source(v: Json): string
    requires Sourced(v)
  {
    Find(v.entries, "source").value.text
  }

  function Drop(cs: seq<Entry>, key: string): seq<Entry> {
    if cs == [] then [] else (if cs[0].key == key then [] else [cs[0]]) + Drop(cs[1..], key)
  }

  /** The "value" when there is one, otherwise everything but the source. */
  function Desired(v: Json): Json
    requires Sourced(v)
  {
    if Find(v.entries, "value").Some? then Find(v.entries, "value").value else Dict(Drop(v.entries, "source"))
  }

  function Nodes(v: Json, path: seq<string>): seq<Node>
    decreases v, |Children(v)| + 1
  {
    if Sourced(v) then [Node(path, Source(v), Desired(v))] else NodesBelow(v, Children(v), path)
  }

  function NodesBelow(v: Json, cs: seq<Entry>, path: seq<string>): seq<Node>
    requires forall c <- cs :: c.value < v
    decreases v, |cs|
  {
    if cs == [] then [] else Nodes(cs[0].value, path + [cs[0].key]) + NodesBelow(v, cs[1..], path)
  }

  // ---- an independent reading of the tree ----------------------------------

  /** Following a path of keys and indices from the root. */
  function Reach(v: Json, path: seq<string>): Option<Json>
    decreases |path|
  {
    if path == [] then Some(v)
    else
      var child := Find(Children(v), path[0]);
      if child.None? then None else Reach(child.value, path[1..])
  }

  predicate SourcedAt(v: Json, path: seq<string>) { Reach(v, path).Some? && Sourced(Reach(v, path).value) }

  /** The path leads to a sourced object, and to none on the way. */
  ghost predicate Outermost(v: Json, path: seq<string>) {
    SourcedAt(v, path) && forall k | 0 <= k < |path| :: !SourcedAt(v, path[..k])
  }

  function NodeAt(v: Json, rel: seq<string>, path: seq<string>): Node
    requires SourcedAt(v, rel)
  {
    Node(path, Source(Reach(v, rel).value), Desired(Reach(v, rel).value))
  }

  /** What makes an object sourced: its "source" is a text. */
  lemma SourcedExactly(v: Json)
    requires v.Dict? ==> DistinctKeys(v.entries)
    ensures Sourced(v) <==> v.Dict? && exists text :: Entry("source", Text(text)) in v.entries
    ensures Sourced(v) ==> Entry("source", Text(Source(v))) in v.entries
  {
    if v.Dict? {
      forall e <- v.entries | e.key == "source" ensures Find(v.entries, "source") == Some(e.value) {
        var i :| 0 <= i < |v.entries| && v.entries[i] == e;
        assert Find(v.entries, "source").Some?;
      }
    }
  }

  lemma {:induction false} DropsExactly(cs: seq<Entry>, key: string)
    ensures forall e :: e in Drop(cs, key) <==> e in cs && e.key != key
  {
    if cs != [] {
      DropsExactly(cs[1..], key);
      assert cs == [cs[0]] + cs[1..];
    }
  }

  /** What an item asks for: the "value" of its object if there is one, else all of the object but the source. */
  lemma DesiredExactly(v: Json)
    requires Sourced(v) && DistinctKeys(v.entries)
    ensures forall value :: Entry("value", value) in v.entries ==> Desired(v) == value
    ensures (forall e <- v.entries :: e.key != "value") ==>
      Desired(v).Dict? && forall e :: e in Desired(v).entries <==> e in v.entries && e.key != "source"
  {
    DropsExactly(v.entries, "source");
  }

  ghost predicate DistinctKeys(cs: seq<Entry>) {
    forall i, j | 0 <= i < j < |cs| :: cs[i].key != cs[j].key
  }

  /** Python dictionaries have distinct keys, at every level. */
  ghost predicate WellFormed(v: Json)
    decreases v
  {
    && (v.Dict? ==> DistinctKeys(v.entries))
    && forall c <- Children(v) :: WellFormed(c.value)
  }

  lemma {:induction false} DecimalInjective(m: nat, n: nat)
    requires Decimal(m) == Decimal(n)
    ensures m == n
    decreases m
  {
    var a, b := Decimal(m), Decimal(n);
    assert a[|a| - 1] == Digit(m % 10) && b[|b| - 1] == Digit(n % 10);
    assert m % 10 == n % 10;
    if m >= 10 && n >= 10 {
      assert a[..|a| - 1] == Decimal(m / 10) && b[..|b| - 1] == Decimal(n / 10);
      DecimalInjective(m / 10, n / 10);
    } else if m >= 10 {
      assert |a| > 1;
    } else if n >= 10 {
      assert |b| > 1;
    }
  }

  lemma ChildrenDistinct(v: Json)
    requires WellFormed(v)
    ensures DistinctKeys(Children(v))
  {
    var cs := Children(v);
    forall i, j | 0 <= i < j < |cs| ensures cs[i].key != cs[j].key {
      if v.List? && Decimal(i) == Decimal(j) { DecimalInjective(i, j); }
    }
  }

  lemma {:induction false} FindAt(cs: seq<Entry>, i: nat)
    requires DistinctKeys(cs) && i < |cs|
    ensures Find(cs, cs[i].key) == Some(cs[i].value)
  {
    if i > 0 { FindAt(cs[1..], i - 1); }
  }

  /** One level down: a path is outermost in the tree exactly when its rest is in the child. */
  lemma OutermostBelow(v: Json, path: seq<string>)
    requires !Sourced(v) && path != []
    ensures var child := Find(Children(v), path[0]);
      Outermost(v, path) <==> child.Some? && Outermost(child.value, path[1..])
  {
    var child := Find(Children(v), path[0]);
    if child.Some? {
      forall k | 0 <= k < |path[1..]| ensures SourcedAt(child.value, path[1..][..k]) == SourcedAt(v, path[..k + 1]) {
        assert path[..k + 1][0] == path[0] && path[..k + 1][1..] == path[1..][..k];
      }
      assert SourcedAt(v, path) == SourcedAt(child.value, path[1..]);
      if Outermost(v, path) {
        forall k | 0 <= k < |path[1..]| ensures !SourcedAt(child.value, path[1..][..k]) {
          assert !SourcedAt(v, path[..k + 1]);
        }
      }
      if Outermost(child.value, path[1..]) {
        forall k | 0 <= k < |path| ensures !SourcedAt(v, path[..k]) {
          if k == 0 {
            assert path[..0] == [];
          } else {
            assert !SourcedAt(child.value, path[1..][..k - 1]);
          }
        }
      }
    }
  }

  // ---- the nodes are exactly the outermost sourced objects -------------------

  /** The nodes yielded under a base path, described without the recursion. */
  ghost predicate Yields(v: Json, base: seq<string>, n: Node) {
    && base <= n.path
    && var rel := n.path[|base|..];
       Outermost(v, rel) && n == NodeAt(v, rel, n.path)
  }

  lemma {:induction false} NodesExactly(v: Json, base: seq<string>, n: Node)
    requires WellFormed(v)
    ensures n in Nodes(v, base) <==> Yields(v, base, n)
    decreases v, |Children(v)| + 1
  {
    if Sourced(v) {
      SourcedRoot(v, base, n);
    } else {
      ChildrenDistinct(v);
      NodesBelowExactly(v, Children(v), base, n);
      if base < n.path {
        OutermostBelow(v, n.path[|base|..]);
        BelowMeaning(v, base, n);
      } else {
        assert Yields(v, base, n) ==> n.path[|base|..] == [] && Outermost(v, []);
      }
    }
  }

  lemma SourcedRoot(v: Json, base: seq<string>, n: Node)
    requires Sourced(v)
    ensures n in Nodes(v, base) <==> Yields(v, base, n)
  {
    assert Outermost(v, []);
    var rel := if base <= n.path then n.path[|base|..] else [];
    assert SourcedAt(v, rel[..0]);
    assert Outermost(v, rel) ==> rel == [];
    assert base <= n.path ==> n.path == base + rel;
    var only := NodeAt(v, [], base);
    assert Nodes(v, base) == [only];
    assert n in Nodes(v, base) <==> n == only;
    assert Yields(v, base, only) by { assert only.path[|base|..] == []; }
    assert Yields(v, base, n) ==> rel == [] && n == NodeAt(v, rel, n.path);
    assert base[|base|..] == [];
  }

  /** Some child of the list yields the node under its own key. */
  ghost predicate ChildYields(cs: seq<Entry>, base: seq<string>, n: Node) {
    exists i :: 0 <= i < |cs| && Yields(cs[i].value, base + [cs[i].key], n)
  }

  lemma {:induction false} NodesBelowExactly(v: Json, cs: seq<Entry>, base: seq<string>, n: Node)
    requires forall c <- cs :: c.value < v && WellFormed(c.value)
    ensures n in NodesBelow(v, cs, base) <==> ChildYields(cs, base, n)
    decreases v, |cs|
  {
    if cs != [] {
      var first := base + [cs[0].key];
      NodesExactly(cs[0].value, first, n);
      NodesBelowExactly(v, cs[1..], base, n);
      if ChildYields(cs[1..], base, n) {
        var i :| 0 <= i < |cs[1..]| && Yields(cs[1..][i].value, base + [cs[1..][i].key], n);
        assert Yields(cs[i + 1].value, base + [cs[i + 1].key], n);
      }
      if ChildYields(cs, base, n) {
        var i :| 0 <= i < |cs| && Yields(cs[i].value, base + [cs[i].key], n);
        if i > 0 { assert Yields(cs[1..][i - 1].value, base + [cs[1..][i - 1].key], n); }
      }
    }
  }

  /** The node as seen from the child its path starts with. */
  lemma OneLevel(v: Json, base: seq<string>, n: Node)
    requires !Sourced(v) && base < n.path
    ensures var key := n.path[|base|]; var child := Find(Children(v), key);
      Yields(v, base, n) <==> child.Some? && Yields(child.value, base + [key], n)
  {
    var rel, key := n.path[|base|..], n.path[|base|];
    assert rel[0] == key;
    OutermostBelow(v, rel);
    assert base + [key] <= n.path && n.path[|base + [key]|..] == rel[1..];
  }

  lemma BelowMeaning(v: Json, base: seq<string>, n: Node)
    requires WellFormed(v) && DistinctKeys(Children(v)) && !Sourced(v) && base < n.path
    ensures ChildYields(Children(v), base, n) <==> Yields(v, base, n)
  {
    var cs, key := Children(v), n.path[|base|];
    OneLevel(v, base, n);
    if ChildYields(cs, base, n) {
      var i :| 0 <= i < |cs| && Yields(cs[i].value, base + [cs[i].key], n);
      assert key == (base + [cs[i].key])[|base|];
      FindAt(cs, i);
    }
    if Find(cs, key).Some? {
      var c :| c in cs && c.key == key && c.value == Find(cs, key).value;
      var i :| 0 <= i < |cs| && cs[i] == c;
      assert Yields(v, base, n) ==> Yields(cs[i].value, base + [cs[i].key], n);
    }
  }

  // ---- paths are distinct and prefix-free -----------------------------------

  ghost predicate DistinctPaths(ns: seq<Node>) {
    forall i, j | 0 <= i < j < |ns| :: ns[i].path != ns[j].path
  }

  ghost predicate PrefixFree(ns: seq<Node>) {
    forall i, j | 0 <= i < |ns| && 0 <= j < |ns| && i != j :: !(ns[i].path <= ns[j].path)
  }

  lemma {:induction false} PathsDistinct(v: Json, base: seq<string>)
    requires WellFormed(v)
    ensures DistinctPaths(Nodes(v, base))
    decreases v, |Children(v)| + 1
  {
    if !Sourced(v) {
      ChildrenDistinct(v);
      PathsDistinctBelow(v, Children(v), base);
    }
  }

  lemma {:induction false} PathsDistinctBelow(v: Json, cs: seq<Entry>, base: seq<string>)
    requires DistinctKeys(cs) && forall c <- cs :: c.value < v && WellFormed(c.value)
    ensures DistinctPaths(NodesBelow(v, cs, base))
    decreases v, |cs|
  {
    if cs != [] {
      var left, right := Nodes(cs[0].value, base + [cs[0].key]), NodesBelow(v, cs[1..], base);
      PathsDistinct(cs[0].value, base + [cs[0].key]);
      PathsDistinctBelow(v, cs[1..], base);
      forall a <- left, b <- right ensures a.path != b.path {
        NodesExactly(cs[0].value, base + [cs[0].key], a);
        NodesBelowExactly(v, cs[1..], base, b);
        var i :| 0 <= i < |cs[1..]| && Yields(cs[1..][i].value, base + [cs[1..][i].key], b);
        assert a.path[|base|] == (base + [cs[0].key])[|base|];
        assert b.path[|base|] == (base + [cs[i + 1].key])[|base|];
      }
    }
  }

  lemma PrefixIsWhole(v: Json, base: seq<string>, a: Node, b: Node)
    requires Yields(v, base, a) && Yields(v, base, b) && a.path <= b.path
    ensures a.path == b.path
  {
    var rel, k := b.path[|base|..], |a.path| - |base|;
    assert rel[..k] == a.path[|base|..];
    assert SourcedAt(v, rel[..k]);
  }

  /** No evidence path is a prefix of another, so none is repeated either. */
  lemma PathsPrefixFree(v: Json, base: seq<string>)
    requires WellFormed(v)
    ensures PrefixFree(Nodes(v, base))
  {
    var ns := Nodes(v, base);
    forall a <- ns, b <- ns ensures a.path <= b.path ==> a.path == b.path {
      NodesExactly(v, base, a);
      NodesExactly(v, base, b);
      if a.path <= b.path { PrefixIsWhole(v, base, a, b); }
    }
    PathsDistinct(v, base);
  }

  // ---- identities ----------------------------------------------------------

  /** `"/".join(path)`. */
  function Join(path: seq<string>): string {
    if path == [] then "" else if |path| == 1 then path[0] else path[0] + "/" + Join(path[1..])
  }

  /** What the item identity is the digest of. */
  function Identity(n: Node): string { Join(n.path) + "|" + n.source }

  ghost predicate Plain(path: seq<string>) { forall c <- path :: '/' !in c && '|' !in c }

  /** Two texts cut at their first occurrence of a character. */
  lemma SameCut(a: string, b: string, x: string, y: string, c: char)
    requires c !in a && c !in b && a + [c] + x == b + [c] + y
    ensures a == b && x == y
  {
    var t := a + [c] + x;
    assert t == b + [c] + y;
    assert t[|a|] == c && t[|b|] == c;
    assert (forall k | 0 <= k < |a| :: t[k] in a) && forall k | 0 <= k < |b| :: t[k] in b;
    assert a == t[..|a|] && b == t[..|b|] && x == t[|a| + 1..] && y == t[|b| + 1..];
  }

  lemma {:induction false} JoinedPlain(path: seq<string>)
    requires Plain(path)
    ensures '|' !in Join(path)
    ensures |path| > 1 ==> '/' in Join(path)
  {
    if |path| > 1 {
      JoinedPlain(path[1..]);
      assert Join(path)[|path[0]|] == '/';
    }
  }

  lemma {:induction false} JoinInjective(p: seq<string>, q: seq<string>)
    requires Plain(p) && Plain(q) && p != [] && q != [] && Join(p) == Join(q)
    ensures p == q
  {
    JoinedPlain(p);
    JoinedPlain(q);
    if |p| > 1 && |q| > 1 {
      SameCut(p[0], q[0], Join(p[1..]), Join(q[1..]), '/');
      JoinInjective(p[1..], q[1..]);
      assert p == [p[0]] + p[1..] && q == [q[0]] + q[1..];
    }
  }

  /** With keys free of the two separators, the identity determines path and source. */
  lemma IdentityInjective(a: Node, b: Node)
    requires Plain(a.path) && Plain(b.path) && a.path != [] && b.path != [] && Identity(a) == Identity(b)
    ensures a.path == b.path && a.source == b.source
  {
    JoinedPlain(a.path);
    JoinedPlain(b.path);
    assert Join(a.path) + ['|'] + a.source == Identity(a);
    assert Join(b.path) + ['|'] + b.source == Identity(b);
    SameCut(Join(a.path), Join(b.path), a.source, b.source, '|');
    JoinInjective(a.path, b.path);
  }

  const CLASH := Dict([
    Entry("a/b", Dict([Entry("source", Text("S!A1"))])),
    Entry("a", Dict([Entry("b", Dict([Entry("source", Text("S!A1"))]))]))])

  lemma LeafNode(path: seq<string>)
    ensures Nodes(Dict([Entry("source", Text("S!A1"))]), path) == [Node(path, "S!A1", Dict([]))]
  {
    var leaf := Dict([Entry("source", Text("S!A1"))]);
    assert leaf.entries[1..] == [];
    assert Drop(leaf.entries, "source") == [];
  }

  lemma ClashingNodes()
    ensures Nodes(CLASH, ["d"]) == [Node(["d", "a/b"], "S!A1", Dict([])), Node(["d", "a", "b"], "S!A1", Dict([]))]
  {
    var leaf := Dict([Entry("source", Text("S!A1"))]);
    var inner := Dict([Entry("b", leaf)]);
    assert Sourced(leaf) && !Sourced(inner) && !Sourced(CLASH);
    LeafNode(["d", "a/b"]);
    LeafNode(["d", "a", "b"]);
    assert Nodes(inner, ["d", "a"]) == Nodes(leaf, ["d", "a", "b"]) by {
      assert ["d", "a"] + ["b"] == ["d", "a", "b"];
      assert NodesBelow(inner, inner.entries, ["d", "a"]) == Nodes(leaf, ["d", "a", "b"]) + [];
    }
    var tail := [Entry("a", inner)];
    assert CLASH.entries[1..] == tail;
    assert ["d"] + ["a"] == ["d", "a"] && ["d"] + ["a/b"] == ["d", "a/b"];
    assert NodesBelow(CLASH, tail, ["d"]) == Nodes(inner, ["d", "a"]) + [];
    assert Nodes(CLASH, ["d"]) == Nodes(leaf, ["d", "a/b"]) + Nodes(leaf, ["d", "a", "b"]);
  }

  lemma ClashingJoins()
    ensures Join(["d", "a/b"]) == Join(["d", "a", "b"])
  {
    assert Join(["d", "a/b"]) == "d/a/b";
    assert ["d", "a", "b"][1..] == ["a", "b"] && ["a", "b"][1..] == ["b"];
    assert Join(["a", "b"]) == "a/b";
    assert Join(["d", "a", "b"]) == "d" + "/" + Join(["a", "b"]);
  }

  /** A separator inside a key would give two items one identity. */
  lemma SeparatorsClash()
    ensures var ns := Nodes(CLASH, ["d"]);
      |ns| == 2 && ns[0].path != ns[1].path && Identity(ns[0]) == Identity(ns[1])
  {
    ClashingNodes();
    ClashingJoins();
    assert |["d", "a/b"]| != |["d", "a", "b"]|;
  }
}
