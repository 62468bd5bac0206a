/** Order of the connect menu (src/config/wallet-picker.ts). */
module WalletPicker {
  import opened Wrappers
  import opened Text

  const AETHELRED_WALLET_RDNS: string := "org.aethelred.wallet"
  const AETHELRED_CONNECTOR_ID: string := "aethelred"
  const METAMASK_RDNS: string := "io.metamask"
  const GENERIC_INJECTED_ID: string := "injected"

  datatype Connector = Connector(id: Option<string>, name: string, icon: Option<string>)

  /** `name.trim().toLowerCase()`. */
  type NameIdentity = string -> string

  predicate IsDiscoveredWallet(c: Connector) {
    c.id.Some? && '.' in c.id.value
  }

  predicate IsGeneric(c: Connector) {
    c.id == Some(GENERIC_INJECTED_ID)
  }

  /** `/metamask/i.test(name)`. */
  predicate MentionsMetaMask(name: string) {
    |name| >= 8 && (Lower(name[..8]) == "metamask" || MentionsMetaMask(name[1..]))
  }

  function Rank(c: Connector): nat {
    if c.id == Some(AETHELRED_WALLET_RDNS) || c.id == Some(AETHELRED_CONNECTOR_ID) then 0
    else if c.id == Some(METAMASK_RDNS) || MentionsMetaMask(c.name) then 1
    else if IsGeneric(c) then 3
    else 2
  }

  predicate HasDiscoveredWallet(connectors: seq<Connector>) {
    exists i :: 0 <= i < |connectors| && IsDiscoveredWallet(connectors[i])
  }

  /** The first filter, given whether a wallet was discovered. */
  function WithoutGeneric(connectors: seq<Connector>, discovered: bool): seq<Connector> {
    if connectors == [] then []
    else (if discovered && IsGeneric(connectors[0]) then [] else [connectors[0]]) + WithoutGeneric(connectors[1..], discovered)
  }

  function Kept(connectors: seq<Connector>): seq<Connector> {
    WithoutGeneric(connectors, HasDiscoveredWallet(connectors))
  }

  // ---------------------------------------------------------------- sorting

  /** `{ c, i }`. */
  datatype Entry = Entry(connector: Connector, index: nat)

  function Indexed(connectors: seq<Connector>): (entries: seq<Entry>)
    ensures |entries| == |connectors|
    ensures forall i :: 0 <= i < |connectors| ==> entries[i] == Entry(connectors[i], i)
  {
    seq(|connectors|, i requires 0 <= i < |connectors| => Entry(connectors[i], i))
  }

  function Connectors(entries: seq<Entry>): (connectors: seq<Connector>)
    ensures |entries| == |connectors|
    ensures forall i :: 0 <= i < |connectors| ==> connectors[i] == entries[i].connector
  {
    seq(|entries|, i requires 0 <= i < |entries| => entries[i].connector)
  }

  /** The comparator `rank(a.c) - rank(b.c) || a.i - b.i` is negative. */
  predicate Before(a: Entry, b: Entry) {
    Rank(a.connector) < Rank(b.connector) || (Rank(a.connector) == Rank(b.connector) && a.index < b.index)
  }

  predicate InOrder(entries: seq<Entry>) {
    forall i, j :: 0 <= i < j < |entries| ==> Before(entries[i], entries[j])
  }

  function Insert(e: Entry, entries: seq<Entry>): seq<Entry> {
    if entries != [] && Before(entries[0], e) then [entries[0]] + Insert(e, entries[1..]) else [e] + entries
  }

  function Sort(entries: seq<Entry>): seq<Entry> {
    if entries == [] then [] else Insert(entries[0], Sort(entries[1..]))
  }

  predicate DistinctIndices(entries: seq<Entry>) {
    forall i, j :: 0 <= i < j < |entries| ==> entries[i].index != entries[j].index
  }

  lemma {:induction false} InsertKeepsEntries(e: Entry, entries: seq<Entry>)
    ensures multiset(Insert(e, entries)) == multiset(entries) + multiset{e}
  {
    if entries != [] && Before(entries[0], e) {
      InsertKeepsEntries(e, entries[1..]);
      assert entries == [entries[0]] + entries[1..];
    }
  }

  lemma {:induction false} InsertKeepsOrder(e: Entry, entries: seq<Entry>)
    requires InOrder(entries) && forall i :: 0 <= i < |entries| ==> entries[i].index != e.index
    ensures InOrder(Insert(e, entries))
  {
    if entries != [] && Before(entries[0], e) {
      InsertKeepsOrder(e, entries[1..]);
      InsertKeepsEntries(e, entries[1..]);
      forall i | 0 <= i < |Insert(e, entries[1..])|
        ensures Before(entries[0], Insert(e, entries[1..])[i])
      {
        assert Insert(e, entries[1..])[i] in multiset(Insert(e, entries[1..]));
        assert Insert(e, entries[1..])[i] in entries[1..] || Insert(e, entries[1..])[i] == e;
      }
    }
  }

  lemma RestOf(a: seq<Entry>)
    requires a != []
    ensures a == [a[0]] + a[1..] && multiset(a[1..]) == multiset(a) - multiset{a[0]}
  {
  }

  lemma IndexStaysUnused(index: nat, a: seq<Entry>, b: seq<Entry>)
    requires multiset(a) == multiset(b) && forall i :: 0 <= i < |a| ==> a[i].index != index
    ensures forall i :: 0 <= i < |b| ==> b[i].index != index
  {
    forall i | 0 <= i < |b|
      ensures b[i].index != index
    {
      assert b[i] in multiset(a);
    }
  }

  /** Sorting is a permutation into comparator order. */
  lemma {:induction false} SortSorts(entries: seq<Entry>)
    requires DistinctIndices(entries)
    ensures InOrder(Sort(entries)) && multiset(Sort(entries)) == multiset(entries)
  {
    if entries != [] {
      SortSorts(entries[1..]);
      IndexStaysUnused(entries[0].index, entries[1..], Sort(entries[1..]));
      InsertKeepsOrder(entries[0], Sort(entries[1..]));
      InsertKeepsEntries(entries[0], Sort(entries[1..]));
      RestOf(entries);
    }
  }

  /** There is only one such permutation, so it does not matter which algorithm `Array.prototype.sort` runs. */
  lemma {:induction false} OrderIsUnique(a: seq<Entry>, b: seq<Entry>)
    requires InOrder(a) && InOrder(b) && multiset(a) == multiset(b)
    ensures a == b
  {
    if a == [] || b == [] {
      assert |multiset(a)| == |a| && |multiset(b)| == |b|;
    } else {
      assert a[0] in multiset(b) && b[0] in multiset(a);
      assert a[0] == b[0];
      RestOf(a);
      RestOf(b);
      OrderIsUnique(a[1..], b[1..]);
    }
  }

  // ---------------------------------------------------------------- one connector per name

  /** The second filter: what is left of `connectors` when `seen` are the names already shown. */
  function FirstPerName(connectors: seq<Connector>, seen: set<string>, identity: NameIdentity): seq<Connector> {
    if connectors == [] then []
    else
      var name := identity(connectors[0].name);
      if name in seen then FirstPerName(connectors[1..], seen, identity)
      else [connectors[0]] + FirstPerName(connectors[1..], seen + {name}, identity)
  }

  function FirstEntries(entries: seq<Entry>, seen: set<string>, identity: NameIdentity): seq<Entry> {
    if entries == [] then []
    else
      var name := identity(entries[0].connector.name);
      if name in seen then FirstEntries(entries[1..], seen, identity)
      else [entries[0]] + FirstEntries(entries[1..], seen + {name}, identity)
  }

  lemma {:induction false} FirstEntriesAreFirstPerName(entries: seq<Entry>, seen: set<string>, identity: NameIdentity)
    ensures Connectors(FirstEntries(entries, seen, identity)) == FirstPerName(Connectors(entries), seen, identity)
    decreases |entries|
  {
    if entries != [] {
      var name := identity(entries[0].connector.name);
      FirstEntriesAreFirstPerName(entries[1..], if name in seen then seen else seen + {name}, identity);
      assert Connectors(entries)[1..] == Connectors(entries[1..]);
    }
  }

  /** The shown entries, with their positions among the kept connectors. */
  function ShownEntries(connectors: seq<Connector>, identity: NameIdentity): seq<Entry> {
    FirstEntries(Sort(Indexed(Kept(connectors))), {}, identity)
  }

  function Ordered(connectors: seq<Connector>, identity: NameIdentity): seq<Connector> {
    Connectors(ShownEntries(connectors, identity))
  }

  method HasDiscovered(connectors: seq<Connector>) returns (found: bool)
    ensures found == HasDiscoveredWallet(connectors)
  {
    found := false;
    var i := 0;
    while i < |connectors| && !found
      invariant 0 <= i <= |connectors|
      invariant found == exists k :: 0 <= k < i && IsDiscoveredWallet(connectors[k])
    {
      found := IsDiscoveredWallet(connectors[i]);
      i := i + 1;
    }
  }

  /** The filter with `seenWallets`. */
  method DropRepeatedNames(connectors: seq<Connector>, identity: NameIdentity) returns (shown: seq<Connector>)
    ensures shown == FirstPerName(connectors, {}, identity)
  {
    var seenWallets: set<string> := {};
    shown := [];
    var i := 0;
    while i < |connectors|
      invariant 0 <= i <= |connectors|
      invariant FirstPerName(connectors, {}, identity) == shown + FirstPerName(connectors[i..], seenWallets, identity)
    {
      var name := identity(connectors[i].name);
      assert connectors[i..][1..] == connectors[i + 1..];
      if name !in seenWallets {
        seenWallets := seenWallets + {name};
        shown := shown + [connectors[i]];
      }
      i := i + 1;
    }
  }

  /** `orderWalletConnectors`. */
  method OrderWalletConnectors(connectors: seq<Connector>, identity: NameIdentity) returns (shown: seq<Connector>)
    ensures shown == Ordered(connectors, identity)
  {
    var discovered := HasDiscovered(connectors);
    var sorted := Sort(Indexed(WithoutGeneric(connectors, discovered)));
    shown := DropRepeatedNames(Connectors(sorted), identity);
    FirstEntriesAreFirstPerName(sorted, {}, identity);
  }

  // ---------------------------------------------------------------- what is shown

  predicate SameName(a: Entry, b: Entry, identity: NameIdentity) {
    identity(a.connector.name) == identity(b.connector.name)
  }

  /** No entry of the same name comes before it. */
  predicate Leads(e: Entry, entries: seq<Entry>, identity: NameIdentity) {
    forall x :: x in entries && SameName(x, e, identity) ==> x == e || Before(e, x)
  }

  lemma LeadsStep(first: Entry, rest: seq<Entry>, identity: NameIdentity, e: Entry)
    requires InOrder([first] + rest)
    ensures forall x :: x in rest ==> Before(first, x)
    ensures Leads(first, [first] + rest, identity) && first !in rest
    ensures e in rest ==> (Leads(e, [first] + rest, identity) <==> Leads(e, rest, identity) && !SameName(first, e, identity))
  {
    var entries := [first] + rest;
    forall x | x in rest
      ensures Before(first, x)
    {
      var i :| 0 <= i < |rest| && rest[i] == x;
      assert entries[0] == first && entries[i + 1] == x;
    }
    assert forall x :: x in entries <==> x == first || x in rest;
    assert first in entries;
  }

  lemma {:induction false} FirstEntriesLead(entries: seq<Entry>, seen: set<string>, identity: NameIdentity, e: Entry)
    requires InOrder(entries)
    ensures e in FirstEntries(entries, seen, identity)
            <==> e in entries && identity(e.connector.name) !in seen && Leads(e, entries, identity)
    decreases |entries|
  {
    if entries != [] {
      var first, rest := entries[0], entries[1..];
      var name := identity(first.connector.name);
      assert entries == [first] + rest;
      LeadsStep(first, rest, identity, e);
      FirstEntriesLead(rest, if name in seen then seen else seen + {name}, identity, e);
    }
  }

  lemma {:induction false} FirstEntriesInOrder(entries: seq<Entry>, seen: set<string>, identity: NameIdentity)
    requires InOrder(entries)
    ensures InOrder(FirstEntries(entries, seen, identity))
    decreases |entries|
  {
    if entries != [] {
      var name := identity(entries[0].connector.name);
      var after := if name in seen then seen else seen + {name};
      FirstEntriesInOrder(entries[1..], after, identity);
      forall x | x in FirstEntries(entries[1..], after, identity)
        ensures Before(entries[0], x)
      {
        FirstEntriesLead(entries[1..], after, identity, x);
        assert x in entries[1..];
      }
    }
  }

  lemma SortedEntries(connectors: seq<Connector>)
    ensures var s := Sort(Indexed(Kept(connectors)));
            InOrder(s) && forall e :: e in s <==> e in Indexed(Kept(connectors))
  {
    var entries := Indexed(Kept(connectors));
    SortSorts(entries);
    forall e
      ensures e in Sort(entries) <==> e in entries
    {
      assert e in Sort(entries) <==> e in multiset(Sort(entries));
      assert e in entries <==> e in multiset(entries);
    }
  }

  /**
   * The menu is in strict (rank, position) order, so sorted by rank and stable; it shows exactly the kept connectors
   * that no kept connector of the same name precedes in that order.
   */
  lemma MenuIsTheLeaders(connectors: seq<Connector>, identity: NameIdentity, e: Entry)
    ensures InOrder(ShownEntries(connectors, identity))
    ensures e in ShownEntries(connectors, identity)
            <==> e in Indexed(Kept(connectors)) && Leads(e, Indexed(Kept(connectors)), identity)
  {
    var sorted := Sort(Indexed(Kept(connectors)));
    SortedEntries(connectors);
    FirstEntriesInOrder(sorted, {}, identity);
    FirstEntriesLead(sorted, {}, identity, e);
  }

  ghost predicate IsAethelred(c: Connector) {
    c.id == Some("org.aethelred.wallet") || c.id == Some("aethelred")
  }

  ghost predicate MetaMaskAt(name: string, k: nat) {
    k + 8 <= |name| && Lower(name[k..k + 8]) == "metamask"
  }

  /** "metamask" stands somewhere in the name, in any case. */
  ghost predicate NamesMetaMask(name: string) {
    exists k: nat :: MetaMaskAt(name, k)
  }

  ghost predicate IsMetaMask(c: Connector) {
    !IsAethelred(c) && (c.id == Some("io.metamask") || NamesMetaMask(c.name))
  }

  /** The generic entry, unless its name makes it MetaMask. */
  ghost predicate IsFallback(c: Connector) {
    c.id == Some("injected") && !IsMetaMask(c)
  }

  lemma {:induction false} MentionIsSomewhere(name: string)
    ensures MentionsMetaMask(name) <==> NamesMetaMask(name)
  {
    if |name| >= 8 {
      var rest := name[1..];
      MentionIsSomewhere(rest);
      assert name[0..8] == name[..8];
      if Lower(name[..8]) == "metamask" {
        assert MetaMaskAt(name, 0);
      }
      if k: nat :| MetaMaskAt(rest, k) {
        assert name[k + 1..k + 1 + 8] == rest[k..k + 8];
        assert MetaMaskAt(name, k + 1);
      }
      if k: nat :| k > 0 && MetaMaskAt(name, k) {
        assert rest[k - 1..k - 1 + 8] == name[k..k + 8];
        assert MetaMaskAt(rest, k - 1);
      }
    }
  }

  lemma RankIsKind(c: Connector)
    ensures Rank(c) == if IsAethelred(c) then 0 else if IsMetaMask(c) then 1 else if IsFallback(c) then 3 else 2
  {
    MentionIsSomewhere(c.name);
  }

  /**
   * The menu by kind: Aethelred before everything else, then MetaMask, then the other wallets, and the generic entry last; within
   * each kind in the order of the kept connectors.
   */
  lemma MenuIsByKind(connectors: seq<Connector>, identity: NameIdentity, i: nat, j: nat)
    requires i < j < |ShownEntries(connectors, identity)|
    ensures var (a, b) := (ShownEntries(connectors, identity)[i], ShownEntries(connectors, identity)[j]);
            && (IsAethelred(b.connector) ==> IsAethelred(a.connector) && a.index < b.index)
            && (IsMetaMask(b.connector) ==> IsAethelred(a.connector) || (IsMetaMask(a.connector) && a.index < b.index))
            && (IsFallback(a.connector) ==> IsFallback(b.connector) && a.index < b.index)
            && (IsFallback(b.connector) || IsMetaMask(a.connector) || IsAethelred(a.connector) || a.index < b.index)
            && a.index < |Kept(connectors)| && Kept(connectors)[a.index] == a.connector == Ordered(connectors, identity)[i]
  {
    var shown := ShownEntries(connectors, identity);
    MenuIsTheLeaders(connectors, identity, shown[i]);
    assert Before(shown[i], shown[j]);
    RankIsKind(shown[i].connector);
    RankIsKind(shown[j].connector);
  }

  /** Names in the menu are pairwise distinct. */
  lemma NamesAreDistinct(connectors: seq<Connector>, identity: NameIdentity, i: nat, j: nat)
    requires i < j < |Ordered(connectors, identity)|
    ensures identity(Ordered(connectors, identity)[i].name) != identity(Ordered(connectors, identity)[j].name)
  {
    var shown := ShownEntries(connectors, identity);
    MenuIsTheLeaders(connectors, identity, shown[i]);
    MenuIsTheLeaders(connectors, identity, shown[j]);
    assert Before(shown[i], shown[j]);
  }

  lemma {:induction false} SomeoneLeads(entries: seq<Entry>, identity: NameIdentity, e: Entry) returns (leader: Entry)
    requires InOrder(entries) && e in entries
    ensures leader in entries && SameName(leader, e, identity) && Leads(leader, entries, identity)
    decreases |entries|
  {
    var first, rest := entries[0], entries[1..];
    assert entries == [first] + rest;
    LeadsStep(first, rest, identity, first);
    if SameName(first, e, identity) {
      leader := first;
    } else {
      leader := SomeoneLeads(rest, identity, e);
      LeadsStep(first, rest, identity, leader);
    }
  }

  /** Every kept connector's name is represented in the menu. */
  lemma EveryNameIsShown(connectors: seq<Connector>, identity: NameIdentity, i: nat) returns (k: nat)
    requires i < |Kept(connectors)|
    ensures k < |Ordered(connectors, identity)|
    ensures identity(Ordered(connectors, identity)[k].name) == identity(Kept(connectors)[i].name)
  {
    var e := Indexed(Kept(connectors))[i];
    SortedEntries(connectors);
    var leader := SomeoneLeads(Sort(Indexed(Kept(connectors))), identity, e);
    MenuIsTheLeaders(connectors, identity, leader);
    var shown := ShownEntries(connectors, identity);
    k :| 0 <= k < |shown| && shown[k] == leader;
  }

  // ---------------------------------------------------------------- the generic entry

  lemma {:induction false} WithoutGenericKeeps(connectors: seq<Connector>, discovered: bool, c: Connector)
    ensures c in WithoutGeneric(connectors, discovered) <==> c in connectors && !(discovered && IsGeneric(c))
  {
    if connectors != [] {
      WithoutGenericKeeps(connectors[1..], discovered, c);
      assert connectors == [connectors[0]] + connectors[1..];
    }
  }

  lemma {:induction false} WithoutGenericChangesNothing(connectors: seq<Connector>, discovered: bool)
    requires discovered ==> forall c :: c in connectors ==> !IsGeneric(c)
    ensures WithoutGeneric(connectors, discovered) == connectors
  {
    if connectors != [] {
      WithoutGenericChangesNothing(connectors[1..], discovered);
      assert connectors == [connectors[0]] + connectors[1..];
    }
  }

  /** The kept connectors are all of them, except that generic entries go exactly when a wallet was discovered. */
  lemma GenericKeptUnlessDiscovered(connectors: seq<Connector>, c: Connector)
    ensures c in Kept(connectors) <==>
              c in connectors && !(c.id == Some("injected") && exists d :: d in connectors && d.id.Some? && '.' in d.id.value)
    ensures !HasDiscoveredWallet(connectors) ==> Kept(connectors) == connectors
  {
    WithoutGenericKeeps(connectors, HasDiscoveredWallet(connectors), c);
    if i :| 0 <= i < |connectors| && IsDiscoveredWallet(connectors[i]) {
      assert connectors[i] in connectors && connectors[i].id.Some?;
    }
    if !HasDiscoveredWallet(connectors) {
      WithoutGenericChangesNothing(connectors, false);
    }
  }

  lemma ShownIsKept(connectors: seq<Connector>, identity: NameIdentity, c: Connector)
    requires c in Ordered(connectors, identity)
    ensures c in Kept(connectors)
  {
    var shown := ShownEntries(connectors, identity);
    var k :| 0 <= k < |shown| && shown[k].connector == c;
    MenuIsTheLeaders(connectors, identity, shown[k]);
    assert shown[k] in Indexed(Kept(connectors));
  }

  // ---------------------------------------------------------------- idempotence

  lemma {:induction false} DistinctNamesStay(entries: seq<Entry>, seen: set<string>, identity: NameIdentity)
    requires forall i, j :: 0 <= i < j < |entries| ==> !SameName(entries[i], entries[j], identity)
    requires forall i :: 0 <= i < |entries| ==> identity(entries[i].connector.name) !in seen
    ensures FirstEntries(entries, seen, identity) == entries
    decreases |entries|
  {
    if entries != [] {
      DistinctNamesStay(entries[1..], seen + {identity(entries[0].connector.name)}, identity);
      assert entries == [entries[0]] + entries[1..];
    }
  }

  /** Ordering an ordered menu again changes nothing. */
  lemma OrderingIsIdempotent(connectors: seq<Connector>, identity: NameIdentity)
    ensures Ordered(Ordered(connectors, identity), identity) == Ordered(connectors, identity)
  {
    var shown := Ordered(connectors, identity);
    NothingLeftToDrop(connectors, identity);
    ShownInOrder(connectors, identity);
    var entries := Indexed(shown);
    SortSorts(entries);
    OrderIsUnique(Sort(entries), entries);
    forall i, j | 0 <= i < j < |entries|
      ensures !SameName(entries[i], entries[j], identity)
    {
      NamesAreDistinct(connectors, identity, i, j);
    }
    DistinctNamesStay(entries, {}, identity);
    assert Connectors(entries) == shown;
  }

  lemma ShownInOrder(connectors: seq<Connector>, identity: NameIdentity)
    ensures InOrder(Indexed(Ordered(connectors, identity)))
  {
    var before, shown := ShownEntries(connectors, identity), Ordered(connectors, identity);
    SortedEntries(connectors);
    FirstEntriesInOrder(Sort(Indexed(Kept(connectors))), {}, identity);
    forall i, j | 0 <= i < j < |shown|
      ensures Before(Indexed(shown)[i], Indexed(shown)[j])
    {
      assert Before(before[i], before[j]);
    }
  }

  lemma NothingLeftToDrop(connectors: seq<Connector>, identity: NameIdentity)
    ensures Kept(Ordered(connectors, identity)) == Ordered(connectors, identity)
  {
    var shown := Ordered(connectors, identity);
    forall c | c in shown
      ensures c in connectors && !(IsGeneric(c) && HasDiscoveredWallet(connectors))
    {
      ShownIsKept(connectors, identity, c);
      GenericKeptUnlessDiscovered(connectors, c);
    }
    if HasDiscoveredWallet(shown) {
      var i :| 0 <= i < |shown| && IsDiscoveredWallet(shown[i]);
      assert shown[i] in connectors;
    }
    WithoutGenericChangesNothing(shown, HasDiscoveredWallet(shown));
  }
}
