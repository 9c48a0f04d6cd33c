/**
 Items and execution plan of `rr_validator.py`: every evidence node becomes one
 item, and the plan lists each item in the section of its domain, as verified or held.
 */
module ExecutionPlan {
  import opened Wrappers
  import opened EvidenceTree

  const ORDER: seq<string> := [
    "event_settings", "registration_types", "admission_items", "optional_items", "pricing",
    "discounts_vouchers", "questions", "sessions", "registration_paths", "site_designer",
    "integrations", "communications", "badges_onsite", "associations", "final_qa"]

  datatype Status = Verified | Ambiguous | NotSupportedByRr

  datatype Item = Item(id: string, domain: string, path: string, status: Status, desired: Json)

  datatype Section = Section(
    order: nat, domain: string, verifiedItemIds: seq<string>, heldItems: seq<(string, Status)>)

  /** `expected.get("domains", {}).get(domain, {})`. */
  function Tree(expected: map<string, Json>, domain: string): Json {
    if domain in expected then expected[domain] else Dict([])
  }

  /** The domains as one tree, in plan order below its root. */
  function Root(order: seq<string>, expected: map<string, Json>): Json {
    Dict(seq(|order|, k requires 0 <= k < |order| => Entry(order[k], Tree(expected, order[k]))))
  }

  /** `judge` stands for the comparison of the desired value with the cells of its source range. */
  function ItemOf(n: Node, judge: (string, Json) -> Status): Item
    requires n.path != []
  {
    Item(Identity(n), n.path[0], Join(n.path), judge(n.source, n.desired), n.desired)
  }

  function ItemsOf(ns: seq<Node>, judge: (string, Json) -> Status): seq<Item>
    requires forall n <- ns :: n.path != []
  {
    if ns == [] then [] else ItemsOf(ns[..|ns| - 1], judge) + [ItemOf(ns[|ns| - 1], judge)]
  }

  /** What the plan needs of the list of domains. */
  ghost predicate GoodOrder(order: seq<string>) {
    && (forall i, j | 0 <= i < j < |order| :: order[i] != order[j])
    && "source" !in order && Plain(order)
  }

  /** A domain is known by its length and at most two of its characters. */
  function Index(d: string): nat {
    if |d| == 7 then 4
    else if |d| == 8 then if d[0] == 's' then 7 else 14
    else if |d| == 9 then 6
    else if |d| == 12 then if d[0] == 'i' then 10 else 13
    else if |d| == 13 then if d[0] == 's' then 9 else 12
    else if |d| == 14 then if d[0] == 'e' then 0 else if d[0] == 'o' then 3 else 11
    else if |d| == 15 then 2
    else if |d| == 18 then if d[0] == 'd' then 5 else if d[13] == 't' then 1 else 8
    else 15
  }

  lemma OrderIsGood()
    ensures GoodOrder(ORDER)
  {
    IndexedFirst();
    IndexedLast();
    PlainFirst();
    PlainMiddle();
    PlainLast();
    forall d <- ORDER ensures '/' !in d && '|' !in d {
      var k :| 0 <= k < |ORDER| && ORDER[k] == d;
      assert if k < 8 then d == ORDER[..8][k] else if k < 12 then d == ORDER[8..12][k - 8] else d == ORDER[12..][k - 12];
    }
    assert forall i | 0 <= i < |ORDER| :: Index(ORDER[i]) == i;
    assert Index("source") == 15;
  }

  lemma IndexedFirst()
    ensures |ORDER| == 15
    ensures Index(ORDER[0]) == 0 && Index(ORDER[1]) == 1 && Index(ORDER[2]) == 2 && Index(ORDER[3]) == 3
    ensures Index(ORDER[4]) == 4 && Index(ORDER[5]) == 5 && Index(ORDER[6]) == 6 && Index(ORDER[7]) == 7
  {}

  lemma IndexedLast()
    ensures |ORDER| == 15
    ensures Index(ORDER[8]) == 8 && Index(ORDER[9]) == 9 && Index(ORDER[10]) == 10 && Index(ORDER[11]) == 11
    ensures Index(ORDER[12]) == 12 && Index(ORDER[13]) == 13 && Index(ORDER[14]) == 14
  {}

  lemma PlainFirst()
    ensures |ORDER| == 15 && Plain(ORDER[..8])
  {}

  lemma PlainMiddle()
    ensures |ORDER| == 15 && Plain(ORDER[8..12])
  {}

  lemma PlainLast()
    ensures |ORDER| == 15 && Plain(ORDER[12..])
  {}

  lemma RootUnsourced(order: seq<string>, expected: map<string, Json>)
    requires GoodOrder(order)
    ensures !Sourced(Root(order, expected)) && DistinctKeys(Root(order, expected).entries)
  {
    var cs := Root(order, expected).entries;
    assert forall c <- cs :: c.key in order;
  }

  lemma {:induction false} BelowAppend(v: Json, cs: seq<Entry>, c: Entry, path: seq<string>)
    requires (forall x <- cs :: x.value < v) && c.value < v
    ensures NodesBelow(v, cs + [c], path) == NodesBelow(v, cs, path) + Nodes(c.value, path + [c.key])
    decreases |cs|
  {
    if cs == [] {
      assert cs + [c] == [c] && [c][1..] == [];
    } else {
      assert (cs + [c])[1..] == cs[1..] + [c];
      BelowAppend(v, cs[1..], c, path);
    }
  }

  lemma {:induction false} ItemsAppend(a: seq<Node>, b: seq<Node>, judge: (string, Json) -> Status)
    requires (forall n <- a :: n.path != []) && forall n <- b :: n.path != []
    ensures ItemsOf(a + b, judge) == ItemsOf(a, judge) + ItemsOf(b, judge)
  {
    if b == [] {
      assert a + b == a;
    } else {
      ItemsAppend(a, b[..|b| - 1], judge);
      assert (a + b)[..|a + b| - 1] == a + b[..|b| - 1];
    }
  }

  /** Every node of a tree read under a base path has that path as a prefix. */
  lemma {:induction false} BaseIsPrefix(v: Json, base: seq<string>)
    ensures forall n <- Nodes(v, base) :: base <= n.path
    decreases v, |Children(v)| + 1
  {
    if !Sourced(v) {
      BaseIsPrefixBelow(v, Children(v), base);
      forall n <- Nodes(v, base) ensures base <= n.path {
      }
    }
  }

  lemma {:induction false} BaseIsPrefixBelow(v: Json, cs: seq<Entry>, base: seq<string>)
    requires forall c <- cs :: c.value < v
    ensures forall n <- NodesBelow(v, cs, base) :: base < n.path
    decreases v, |cs|
  {
    if cs != [] {
      BaseIsPrefix(cs[0].value, base + [cs[0].key]);
      BaseIsPrefixBelow(v, cs[1..], base);
      assert base < base + [cs[0].key];
    }
  }

  function AllNodes(order: seq<string>, expected: map<string, Json>): (ns: seq<Node>)
    requires GoodOrder(order)
    ensures forall n <- ns :: n.path != []
  {
    RootUnsourced(order, expected);
    BaseIsPrefixBelow(Root(order, expected), Root(order, expected).entries, []);
    Nodes(Root(order, expected), [])
  }

  /** The inner loop: the items of one domain. */
  method DomainItems(domain: string, tree: Json, judge: (string, Json) -> Status) returns (items: seq<Item>)
    ensures forall n <- Nodes(tree, [domain]) :: n.path != []
    ensures items == ItemsOf(Nodes(tree, [domain]), judge)
  {
    var nodes := Nodes(tree, [domain]);
    BaseIsPrefix(tree, [domain]);
    items := [];
    for j := 0 to |nodes|
      invariant items == ItemsOf(nodes[..j], judge)
    {
      var n := nodes[j];
      assert nodes[..j + 1][..j] == nodes[..j];
      assert n in nodes && n.path[0] == domain;
      items := items + [Item(Identity(n), domain, Join(n.path), judge(n.source, n.desired), n.desired)];
    }
    assert nodes[..|nodes|] == nodes;
  }

  lemma OneMoreTree(root: Json, k: nat, judge: (string, Json) -> Status)
    requires root.Dict? && k < |root.entries|
    requires forall n <- NodesBelow(root, root.entries[..k], []) :: n.path != []
    requires forall n <- Nodes(root.entries[k].value, [root.entries[k].key]) :: n.path != []
    ensures forall n <- NodesBelow(root, root.entries[..k + 1], []) :: n.path != []
    ensures ItemsOf(NodesBelow(root, root.entries[..k + 1], []), judge) ==
      ItemsOf(NodesBelow(root, root.entries[..k], []), judge)
        + ItemsOf(Nodes(root.entries[k].value, [root.entries[k].key]), judge)
  {
    var cs, c := root.entries[..k], root.entries[k];
    assert root.entries[..k + 1] == cs + [c];
    BelowAppend(root, cs, c, []);
    assert [] + [c.key] == [c.key];
    ItemsAppend(NodesBelow(root, cs, []), Nodes(c.value, [c.key]), judge);
  }

  /** An item shows its path joined by slashes, and its identity adds the source. */
  lemma ItemMeaning(n: Node, judge: (string, Json) -> Status)
    requires n.path != []
    ensures var item := ItemOf(n, judge);
      && item.domain == n.path[0] && item.id == item.path + "|" + n.source
      && (|n.path| == 1 ==> item.path == n.path[0])
      && (|n.path| > 1 ==> item.path == n.path[0] + "/" + Join(n.path[1..]))
      && item.desired == n.desired && item.status == judge(n.source, n.desired)
  {}

  /** The nodes are those of the trees of the listed domains, each below its domain's name. */
  lemma NodesOfDomains(order: seq<string>, expected: map<string, Json>, n: Node)
    requires GoodOrder(order) && WellFormedTrees(expected)
    ensures n in AllNodes(order, expected) <==>
      exists domain <- order :: domain in expected && Yields(expected[domain], [domain], n)
  {
    var root := Root(order, expected);
    RootUnsourced(order, expected);
    RootWellFormed(order, expected);
    NodesBelowExactly(root, root.entries, [], n);
    forall k | 0 <= k < |order|
      ensures root.entries[k] == Entry(order[k], Tree(expected, order[k])) && [] + [order[k]] == [order[k]]
      ensures Yields(Tree(expected, order[k]), [order[k]], n) <==>
        order[k] in expected && Yields(expected[order[k]], [order[k]], n)
    {
      TreeYields(expected, order[k], n);
    }
  }

  /** A domain that the expectations lack yields nothing. */
  lemma TreeYields(expected: map<string, Json>, domain: string, n: Node)
    ensures Yields(Tree(expected, domain), [domain], n) <==>
      domain in expected && Yields(expected[domain], [domain], n)
  {
    NodesExactly(Dict([]), [domain], n);
  }

  /** The nested loops over domains and evidence nodes. */
  method BuildItems(order: seq<string>, expected: map<string, Json>, judge: (string, Json) -> Status)
    returns (items: seq<Item>)
    requires GoodOrder(order)
    ensures items == ItemsOf(AllNodes(order, expected), judge)
  {
    ghost var root := Root(order, expected);
    RootUnsourced(order, expected);
    items := [];
    for k := 0 to |order|
      invariant forall n <- NodesBelow(root, root.entries[..k], []) :: n.path != []
      invariant items == ItemsOf(NodesBelow(root, root.entries[..k], []), judge)
    {
      var more := DomainItems(order[k], Tree(expected, order[k]), judge);
      assert root.entries[k] == Entry(order[k], Tree(expected, order[k]));
      OneMoreTree(root, k, judge);
      items := items + more;
    }
    assert root.entries[..|order|] == root.entries;
  }

  // ---- the plan --------------------------------------------------------------

  function OfDomain(items: seq<Item>, domain: string): seq<Item> {
    if items == [] then []
    else OfDomain(items[..|items| - 1], domain)
           + if items[|items| - 1].domain == domain then [items[|items| - 1]] else []
  }

  function VerifiedIds(items: seq<Item>): seq<string> {
    if items == [] then []
    else VerifiedIds(items[..|items| - 1])
           + if items[|items| - 1].status == Verified then [items[|items| - 1].id] else []
  }

  function Held(items: seq<Item>): seq<(string, Status)> {
    if items == [] then []
    else Held(items[..|items| - 1])
           + if items[|items| - 1].status != Verified then [(items[|items| - 1].id, items[|items| - 1].status)] else []
  }

  function SectionOf(order: seq<string>, items: seq<Item>, k: nat): Section
    requires k < |order|
  {
    var mine := OfDomain(items, order[k]);
    Section(k + 1, order[k], VerifiedIds(mine), Held(mine))
  }

  method BuildPlan(order: seq<string>, items: seq<Item>) returns (sections: seq<Section>)
    ensures |sections| == |order| && forall k | 0 <= k < |order| :: sections[k] == SectionOf(order, items, k)
    ensures forall k | 0 <= k < |order| :: sections[k].order == k + 1 && sections[k].domain == order[k]
  {
    sections := [];
    for k := 0 to |order|
      invariant |sections| == k && forall i | 0 <= i < k :: sections[i] == SectionOf(order, items, i)
    {
      var domainItems := OfDomain(items, order[k]);
      sections := sections + [Section(|sections| + 1, order[k], VerifiedIds(domainItems), Held(domainItems))];
    }
  }

  /** What a section lists, each id with the status it is listed under. */
  function ListedIn(section: Section): multiset<(string, Status)> {
    multiset(AsVerified(section.verifiedItemIds)) + multiset(section.heldItems)
  }

  function AsVerified(ids: seq<string>): seq<(string, Status)> {
    if ids == [] then [] else AsVerified(ids[..|ids| - 1]) + [(ids[|ids| - 1], Verified)]
  }

  function Listed(sections: seq<Section>): multiset<(string, Status)> {
    if sections == [] then multiset{} else Listed(sections[..|sections| - 1]) + ListedIn(sections[|sections| - 1])
  }

  function Pairs(items: seq<Item>): multiset<(string, Status)> {
    if items == [] then multiset{}
    else Pairs(items[..|items| - 1]) + multiset{(items[|items| - 1].id, items[|items| - 1].status)}
  }

  lemma AsVerifiedAppend(ids: seq<string>, id: string)
    ensures AsVerified(ids + [id]) == AsVerified(ids) + [(id, Verified)]
  {
    assert (ids + [id])[..|ids|] == ids;
  }

  lemma {:induction false} VerifiedOrHeld(items: seq<Item>)
    ensures multiset(AsVerified(VerifiedIds(items))) + multiset(Held(items)) == Pairs(items)
  {
    if items != [] {
      var front, last := items[..|items| - 1], items[|items| - 1];
      VerifiedOrHeld(front);
      if last.status == Verified {
        AsVerifiedAppend(VerifiedIds(front), last.id);
        assert VerifiedIds(items) == VerifiedIds(front) + [last.id] && Held(items) == Held(front) + [];
      } else {
        assert VerifiedIds(items) == VerifiedIds(front) + [] && VerifiedIds(items) == VerifiedIds(front);
        assert Held(items) == Held(front) + [(last.id, last.status)];
      }
    }
  }

  function Among(items: seq<Item>, domains: seq<string>): seq<Item> {
    if items == [] then []
    else Among(items[..|items| - 1], domains)
           + if items[|items| - 1].domain in domains then [items[|items| - 1]] else []
  }

  lemma PairsAppend(items: seq<Item>, item: Item)
    ensures Pairs(items + [item]) == Pairs(items) + multiset{(item.id, item.status)}
  {
    assert (items + [item])[..|items|] == items;
  }

  function One(b: bool, item: Item): multiset<(string, Status)> {
    if b then multiset{(item.id, item.status)} else multiset{}
  }

  lemma AmongStep(items: seq<Item>, domains: seq<string>)
    requires items != []
    ensures Pairs(Among(items, domains)) == Pairs(Among(items[..|items| - 1], domains))
      + One(items[|items| - 1].domain in domains, items[|items| - 1])
  {
    var front, last := items[..|items| - 1], items[|items| - 1];
    PairsAppend(Among(front, domains), last);
    assert Among(front, domains) + [] == Among(front, domains);
  }

  lemma OfDomainStep(items: seq<Item>, domain: string)
    requires items != []
    ensures Pairs(OfDomain(items, domain)) == Pairs(OfDomain(items[..|items| - 1], domain))
      + One(items[|items| - 1].domain == domain, items[|items| - 1])
  {
    var front, last := items[..|items| - 1], items[|items| - 1];
    PairsAppend(OfDomain(front, domain), last);
    assert OfDomain(front, domain) + [] == OfDomain(front, domain);
  }

  lemma OneSplits(domains: seq<string>, domain: string, item: Item)
    requires domain !in domains
    ensures One(item.domain in domains + [domain], item)
      == One(item.domain in domains, item) + One(item.domain == domain, item)
  {}

  lemma Interchange(all: multiset<(string, Status)>, a: multiset<(string, Status)>, b: multiset<(string, Status)>,
                    x: multiset<(string, Status)>, y: multiset<(string, Status)>)
    requires all == a + b
    ensures all + (x + y) == (a + x) + (b + y)
  {}

  lemma {:induction false} OneMoreDomain(items: seq<Item>, domains: seq<string>, domain: string)
    requires domain !in domains
    ensures Pairs(Among(items, domains + [domain])) == Pairs(Among(items, domains)) + Pairs(OfDomain(items, domain))
    decreases |items|
  {
    if items != [] {
      var front, last := items[..|items| - 1], items[|items| - 1];
      OneMoreDomain(front, domains, domain);
      OneSplits(domains, domain, last);
      Interchange(Pairs(Among(front, domains + [domain])), Pairs(Among(front, domains)), Pairs(OfDomain(front, domain)),
                  One(last.domain in domains, last), One(last.domain == domain, last));
      AmongStep(items, domains + [domain]);
      AmongStep(items, domains);
      OfDomainStep(items, domain);
    }
  }

  lemma {:induction false} NoDomains(items: seq<Item>)
    ensures Among(items, []) == []
  {
    if items != [] { NoDomains(items[..|items| - 1]); }
  }

  lemma {:induction false} AllDomains(items: seq<Item>, domains: seq<string>)
    requires forall item <- items :: item.domain in domains
    ensures Among(items, domains) == items
  {
    if items != [] {
      AllDomains(items[..|items| - 1], domains);
      assert items == items[..|items| - 1] + [items[|items| - 1]];
    }
  }

  lemma {:induction false} ListedSoFar(order: seq<string>, items: seq<Item>, sections: seq<Section>)
    requires GoodOrder(order)
    requires |sections| <= |order| && forall k | 0 <= k < |sections| :: sections[k] == SectionOf(order, items, k)
    ensures Listed(sections) == Pairs(Among(items, order[..|sections|]))
    decreases |sections|
  {
    if sections == [] {
      NoDomains(items);
      assert order[..0] == [];
    } else {
      var n := |sections| - 1;
      ListedSoFar(order, items, sections[..n]);
      assert order[..n + 1] == order[..n] + [order[n]];
      OneMoreDomain(items, order[..n], order[n]);
      VerifiedOrHeld(OfDomain(items, order[n]));
    }
  }

  ghost predicate PlanFor(order: seq<string>, items: seq<Item>, sections: seq<Section>) {
    |sections| == |order| && forall k | 0 <= k < |order| :: sections[k] == SectionOf(order, items, k)
  }

  /**
   The plan lists exactly the items, each as often as it occurs and under its own
   status: VERIFIED ids to execute, the others held.
   */
  lemma PlanListsEveryItem(order: seq<string>, items: seq<Item>, sections: seq<Section>)
    requires GoodOrder(order)
    requires PlanFor(order, items, sections) && forall item <- items :: item.domain in order
    ensures Listed(sections) == Pairs(items)
  {
    ListedSoFar(order, items, sections);
    assert order[..|order|] == order;
    AllDomains(items, order);
  }

  lemma {:induction false} HeldIsUnverified(items: seq<Item>)
    ensures forall h <- Held(items) :: h.1 != Verified
  {
    if items != [] { HeldIsUnverified(items[..|items| - 1]); }
  }

  // ---- from the expectations to the plan -------------------------------------

  ghost predicate PlainKeys(v: Json)
    decreases v
  {
    forall c <- Children(v) :: '/' !in c.key && '|' !in c.key && PlainKeys(c.value)
  }

  ghost predicate GoodExpectations(expected: map<string, Json>) {
    WellFormedTrees(expected) && forall d <- expected :: PlainKeys(expected[d])
  }

  lemma {:induction false} PathsPlain(v: Json, base: seq<string>)
    requires PlainKeys(v) && Plain(base)
    ensures forall n <- Nodes(v, base) :: Plain(n.path)
    decreases v, |Children(v)| + 1
  {
    if !Sourced(v) { PathsPlainBelow(v, Children(v), base); }
  }

  lemma {:induction false} PathsPlainBelow(v: Json, cs: seq<Entry>, base: seq<string>)
    requires Plain(base)
    requires forall c <- cs :: c.value < v && '/' !in c.key && '|' !in c.key && PlainKeys(c.value)
    ensures forall n <- NodesBelow(v, cs, base) :: Plain(n.path)
    decreases v, |cs|
  {
    if cs != [] {
      PathsPlain(cs[0].value, base + [cs[0].key]);
      PathsPlainBelow(v, cs[1..], base);
    }
  }

  ghost predicate WellFormedTrees(expected: map<string, Json>) { forall d <- expected :: WellFormed(expected[d]) }

  lemma RootWellFormed(order: seq<string>, expected: map<string, Json>)
    requires GoodOrder(order) && WellFormedTrees(expected)
    ensures WellFormed(Root(order, expected))
  {
    RootUnsourced(order, expected);
    forall c <- Children(Root(order, expected)) ensures WellFormed(c.value) {
      var k :| 0 <= k < |order| && c == Root(order, expected).entries[k];
    }
  }

  /** Over all domains no evidence path is a prefix of another. */
  lemma AllPathsPrefixFree(order: seq<string>, expected: map<string, Json>)
    requires GoodOrder(order) && WellFormedTrees(expected)
    ensures PrefixFree(AllNodes(order, expected))
  {
    RootWellFormed(order, expected);
    PathsPrefixFree(Root(order, expected), []);
  }

  lemma RootPlain(order: seq<string>, expected: map<string, Json>)
    requires GoodOrder(order) && GoodExpectations(expected)
    ensures PlainKeys(Root(order, expected))
  {
    forall c <- Children(Root(order, expected)) ensures PlainKeys(c.value) && '/' !in c.key && '|' !in c.key {
      var k :| 0 <= k < |order| && c == Root(order, expected).entries[k];
      assert c.key in order;
    }
  }

  lemma {:induction false} ItemAt(ns: seq<Node>, judge: (string, Json) -> Status, i: nat)
    requires (forall n <- ns :: n.path != []) && i < |ns|
    ensures |ItemsOf(ns, judge)| == |ns| && ItemsOf(ns, judge)[i] == ItemOf(ns[i], judge)
    decreases |ns|
  {
    if i < |ns| - 1 {
      ItemAt(ns[..|ns| - 1], judge, i);
    } else if |ns| > 1 {
      ItemAt(ns[..|ns| - 1], judge, 0);
    }
  }

  /** Over all domains the item ids are pairwise distinct. */
  lemma ItemsDistinct(order: seq<string>, expected: map<string, Json>, judge: (string, Json) -> Status)
    requires GoodOrder(order) && GoodExpectations(expected)
    ensures var items := ItemsOf(AllNodes(order, expected), judge);
      forall i, j | 0 <= i < j < |items| :: items[i].id != items[j].id
  {
    var ns := AllNodes(order, expected);
    var items := ItemsOf(ns, judge);
    RootPlain(order, expected);
    AllPathsPrefixFree(order, expected);
    PathsPlain(Root(order, expected), []);
    if items != [] && ns != [] { ItemAt(ns, judge, 0); }
    forall i, j | 0 <= i < j < |items| ensures items[i].id != items[j].id {
      ItemAt(ns, judge, i);
      ItemAt(ns, judge, j);
      assert ns[i] in ns && ns[j] in ns;
      assert !(ns[i].path <= ns[j].path);
      if Identity(ns[i]) == Identity(ns[j]) { IdentityInjective(ns[i], ns[j]); }
    }
  }

  lemma {:induction false} ItemFrom(ns: seq<Node>, judge: (string, Json) -> Status, item: Item) returns (n: Node)
    requires (forall n <- ns :: n.path != []) && item in ItemsOf(ns, judge)
    ensures n in ns && item == ItemOf(n, judge)
  {
    if item == ItemOf(ns[|ns| - 1], judge) {
      n := ns[|ns| - 1];
    } else {
      n := ItemFrom(ns[..|ns| - 1], judge, item);
    }
  }

  lemma DomainsInOrder(order: seq<string>, expected: map<string, Json>, judge: (string, Json) -> Status)
    requires GoodOrder(order)
    ensures forall item <- ItemsOf(AllNodes(order, expected), judge) :: item.domain in order
  {
    var ns := AllNodes(order, expected);
    var root := Root(order, expected);
    RootUnsourced(order, expected);
    FirstKey(root, root.entries);
    forall item <- ItemsOf(ns, judge) ensures item.domain in order {
      var n := ItemFrom(ns, judge, item);
      var c :| c in root.entries && c.key == n.path[0];
    }
  }

  lemma {:induction false} FirstKey(v: Json, cs: seq<Entry>)
    requires forall c <- cs :: c.value < v
    ensures forall n <- NodesBelow(v, cs, []) :: n.path != [] && exists c <- cs :: c.key == n.path[0]
    decreases |cs|
  {
    if cs != [] {
      BaseIsPrefix(cs[0].value, [cs[0].key]);
      FirstKey(v, cs[1..]);
      assert [] + [cs[0].key] == [cs[0].key];
      forall n <- NodesBelow(v, cs, []) ensures n.path != [] && exists c <- cs :: c.key == n.path[0] {
        if n in NodesBelow(v, cs[1..], []) {
          var c :| c in cs[1..] && c.key == n.path[0];
          assert c in cs;
        } else {
          assert cs[0].key == n.path[0];
        }
      }
    }
  }

  /**
   From expectations to plan: the items are the outermost sourced objects of the
   tree, once each, and the plan lists every one of them exactly once.
   */
  lemma PlanAccountsForEvidence(order: seq<string>, expected: map<string, Json>,
                                judge: (string, Json) -> Status, sections: seq<Section>)
    requires GoodOrder(order) && GoodExpectations(expected) && PlanFor(order, ItemsOf(AllNodes(order, expected), judge), sections)
    ensures forall n :: n in AllNodes(order, expected) <==> Yields(Root(order, expected), [], n)
    ensures forall n :: Yields(Root(order, expected), [], n) ==>
      Listed(sections)[(Identity(n), judge(n.source, n.desired))] == 1
  {
    var ns, items := AllNodes(order, expected), ItemsOf(AllNodes(order, expected), judge);
    RootWellFormed(order, expected);
    DomainsInOrder(order, expected, judge);
    PlanListsEveryItem(order, items, sections);
    ItemsDistinct(order, expected, judge);
    forall n ensures n in ns <==> Yields(Root(order, expected), [], n)
      ensures n in ns ==> Pairs(items)[(Identity(n), judge(n.source, n.desired))] == 1
    {
      NodesExactly(Root(order, expected), [], n);
      if n in ns {
        var i :| 0 <= i < |ns| && ns[i] == n;
        ItemAt(ns, judge, i);
        PairOnce(items, i);
      }
    }
  }

  lemma {:induction false} PairOnce(items: seq<Item>, i: nat)
    requires i < |items| && forall a, b | 0 <= a < b < |items| :: items[a].id != items[b].id
    ensures Pairs(items)[(items[i].id, items[i].status)] == 1
    decreases |items|
  {
    var front, last := items[..|items| - 1], items[|items| - 1];
    if i < |front| {
      PairOnce(front, i);
    } else {
      PairAbsent(front, last.id, last.status);
    }
  }

  lemma {:induction false} PairAbsent(items: seq<Item>, id: string, status: Status)
    requires forall item <- items :: item.id != id
    ensures Pairs(items)[(id, status)] == 0
  {
    if items != [] { PairAbsent(items[..|items| - 1], id, status); }
  }
}
