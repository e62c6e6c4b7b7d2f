/**
 * The text whose hash is the deployment fingerprint: master addresses, vesting addresses and code hashes of a
 * manifest, one per line. Strings are compared by code point.
 */
module Fingerprint {
  import opened Common
  import opened EnvText

  /** A property of the manifest; absent and empty values are left out alike. */
  datatype Entry = Entry(key: string, value: string)

  /** The five master addresses in their fixed order, then the named address and code hash properties. */
  datatype Manifest = Manifest(masters: seq<string>, addresses: seq<Entry>, codeHashes: seq<Entry>)

  const MASTER_KEYS := ["jettonMaster", "stakingMaster", "governor", "timelock", "treasury"]

  predicate Before(a: string, b: string) {
    if a == "" then true
    else if b == "" then false
    else if a[0] == b[0] then Before(a[1..], b[1..])
    else a[0] < b[0]
  }

  lemma {:induction false} BeforeIsTotal(a: string, b: string)
    ensures Before(a, b) || Before(b, a)
    ensures Before(a, b) && Before(b, a) ==> a == b
  {
    if a != "" && b != "" && a[0] == b[0] {
      BeforeIsTotal(a[1..], b[1..]);
      assert a == [a[0]] + a[1..] && b == [b[0]] + b[1..];
    }
  }

  lemma {:induction false} BeforeIsTransitive(a: string, b: string, c: string)
    requires Before(a, b) && Before(b, c)
    ensures Before(a, c)
  {
    if a != "" && b != "" && c != "" && a[0] == b[0] == c[0] {
      BeforeIsTransitive(a[1..], b[1..], c[1..]);
    }
  }

  predicate InOrder(lines: seq<string>) {
    |lines| <= 1 || (Before(lines[0], lines[1]) && InOrder(lines[1..]))
  }

  function Insert(line: string, lines: seq<string>): seq<string> {
    if lines == [] || Before(line, lines[0]) then [line] + lines else [lines[0]] + Insert(line, lines[1..])
  }

  function Sort(lines: seq<string>): seq<string> {
    if lines == [] then [] else Insert(lines[0], Sort(lines[1..]))
  }

  lemma {:induction false} InsertKeeps(line: string, lines: seq<string>)
    requires InOrder(lines)
    ensures InOrder(Insert(line, lines)) && multiset(Insert(line, lines)) == multiset{line} + multiset(lines)
  {
    if lines == [] {
    } else if Before(line, lines[0]) {
      assert ([line] + lines)[1..] == lines;
    } else {
      BeforeIsTotal(line, lines[0]);
      InsertKeeps(line, lines[1..]);
      var rest := Insert(line, lines[1..]);
      assert ([lines[0]] + rest)[1..] == rest;
      assert lines == [lines[0]] + lines[1..];
    }
  }

  lemma {:induction false} SortSorts(lines: seq<string>)
    ensures InOrder(Sort(lines)) && multiset(Sort(lines)) == multiset(lines)
  {
    if lines != [] {
      SortSorts(lines[1..]);
      InsertKeeps(lines[0], Sort(lines[1..]));
      assert lines == [lines[0]] + lines[1..];
    }
  }

  lemma {:induction false} HeadIsFirst(lines: seq<string>, x: string)
    requires InOrder(lines) && x in lines
    ensures Before(lines[0], x)
  {
    if x == lines[0] {
      BeforeIsTotal(x, x);
    } else {
      assert lines == [lines[0]] + lines[1..];
      HeadIsFirst(lines[1..], x);
      BeforeIsTransitive(lines[0], lines[1], x);
    }
  }

  lemma WithoutHead(lines: seq<string>)
    requires lines != []
    ensures lines == [lines[0]] + lines[1..] && multiset(lines[1..]) == multiset(lines) - multiset{lines[0]}
  {
    assert lines == [lines[0]] + lines[1..];
  }

  /** There is one ordered arrangement of given lines. */
  lemma {:induction false} OrderedIsUnique(a: seq<string>, b: seq<string>)
    requires InOrder(a) && InOrder(b) && multiset(a) == multiset(b)
    ensures a == b
  {
    if a == [] {
      assert |multiset(b)| == 0;
    } else {
      assert |multiset(a)| == |a| && |multiset(b)| == |b|;
      assert a[0] in multiset(b) && b[0] in multiset(a);
      HeadIsFirst(a, b[0]);
      HeadIsFirst(b, a[0]);
      BeforeIsTotal(a[0], b[0]);
      WithoutHead(a);
      WithoutHead(b);
      OrderedIsUnique(a[1..], b[1..]);
    }
  }

  // ----- The payload -----

  predicate IsVesting(e: Entry) { "vesting" <= e.key && e.value != "" }

  /** Values of the vesting properties, in the order of the manifest. */
  function VestingValues(entries: seq<Entry>): seq<string> {
    if entries == [] then []
    else (if IsVesting(entries[0]) then [entries[0].value] else []) + VestingValues(entries[1..])
  }

  function HashLines(entries: seq<Entry>): seq<string> {
    if entries == [] then []
    else (if entries[0].value != "" then [entries[0].key + "=" + entries[0].value] else []) + HashLines(entries[1..])
  }

  function Labelled(keys: seq<string>, values: seq<string>): seq<string>
    requires |keys| == |values|
  {
    seq(|keys|, i requires 0 <= i < |keys| => keys[i] + "=" + values[i])
  }

  function VestingLines(m: Manifest): seq<string> {
    var values := Sort(VestingValues(m.addresses));
    seq(|values|, i requires 0 <= i < |values| => "vesting=" + values[i])
  }

  function PayloadLines(m: Manifest): seq<string>
    requires |m.masters| == |MASTER_KEYS|
  {
    Labelled(MASTER_KEYS, m.masters) + (VestingLines(m) + Sort(HashLines(m.codeHashes)))
  }

  function Payload(m: Manifest): string
    requires |m.masters| == |MASTER_KEYS|
  {
    Join(PayloadLines(m))
  }

  lemma OneEntry(e: Entry)
    ensures VestingValues([e]) == if IsVesting(e) then [e.value] else []
    ensures HashLines([e]) == if e.value != "" then [e.key + "=" + e.value] else []
  {
    assert [e][1..] == [];
  }

  lemma {:induction false} VestingOfAppend(a: seq<Entry>, b: seq<Entry>)
    ensures VestingValues(a + b) == VestingValues(a) + VestingValues(b)
  {
    if a == [] {
      assert a + b == b;
    } else {
      assert (a + b)[1..] == a[1..] + b;
      VestingOfAppend(a[1..], b);
    }
  }

  lemma {:induction false} HashesOfAppend(a: seq<Entry>, b: seq<Entry>)
    ensures HashLines(a + b) == HashLines(a) + HashLines(b)
  {
    if a == [] {
      assert a + b == b;
    } else {
      assert (a + b)[1..] == a[1..] + b;
      HashesOfAppend(a[1..], b);
    }
  }

  lemma TakenOut(a: seq<string>, b: seq<string>, c: seq<string>)
    ensures multiset(a + (b + c)) == multiset(a + c) + multiset(b)
  {
  }

  lemma VestingWithout(front: seq<Entry>, e: Entry, back: seq<Entry>)
    ensures multiset(VestingValues(front + ([e] + back)))
      == multiset(VestingValues(front + back)) + multiset(VestingValues([e]))
  {
    VestingOfAppend(front, [e] + back);
    VestingOfAppend([e], back);
    VestingOfAppend(front, back);
    TakenOut(VestingValues(front), VestingValues([e]), VestingValues(back));
  }

  lemma HashesWithout(front: seq<Entry>, e: Entry, back: seq<Entry>)
    ensures multiset(HashLines(front + ([e] + back))) == multiset(HashLines(front + back)) + multiset(HashLines([e]))
  {
    HashesOfAppend(front, [e] + back);
    HashesOfAppend([e], back);
    HashesOfAppend(front, back);
    TakenOut(HashLines(front), HashLines([e]), HashLines(back));
  }

  lemma Around(entries: seq<Entry>, k: nat) returns (front: seq<Entry>, back: seq<Entry>)
    requires k < |entries|
    ensures entries == front + ([entries[k]] + back) && RemoveAt(entries, k) == front + back
  {
    front, back := entries[..k], entries[k + 1..];
    assert entries == front + ([entries[k]] + back);
  }

  /** What an entry contributes, wherever it stands. */
  lemma ValuesWithout(entries: seq<Entry>, k: nat)
    requires k < |entries|
    ensures multiset(VestingValues(entries))
      == multiset(VestingValues(RemoveAt(entries, k))) + multiset(VestingValues([entries[k]]))
    ensures multiset(HashLines(entries))
      == multiset(HashLines(RemoveAt(entries, k))) + multiset(HashLines([entries[k]]))
  {
    var front, back := Around(entries, k);
    VestingWithout(front, entries[k], back);
    HashesWithout(front, entries[k], back);
  }

  lemma RemovedOne(entries: seq<Entry>, k: nat)
    requires k < |entries|
    ensures multiset(RemoveAt(entries, k)) == multiset(entries) - multiset{entries[k]}
  {
    assert entries == entries[..k] + ([entries[k]] + entries[k + 1..]);
  }

  /** Where the first entry of one list stands in a permutation of it. */
  lemma Counterpart(a: seq<Entry>, b: seq<Entry>) returns (k: nat)
    requires a != [] && multiset(a) == multiset(b)
    ensures k < |b| && b[k] == a[0] && multiset(RemoveAt(a, 0)) == multiset(RemoveAt(b, k))
  {
    assert a[0] in multiset(b);
    k :| 0 <= k < |b| && b[k] == a[0];
    RemovedOne(a, 0);
    RemovedOne(b, k);
  }

  lemma {:induction false} ValuesOfPermutation(a: seq<Entry>, b: seq<Entry>)
    requires multiset(a) == multiset(b)
    ensures multiset(VestingValues(a)) == multiset(VestingValues(b))
    ensures multiset(HashLines(a)) == multiset(HashLines(b))
    decreases |a|
  {
    if a == [] {
      assert |multiset(b)| == 0;
    } else {
      var k := Counterpart(a, b);
      ValuesOfPermutation(RemoveAt(a, 0), RemoveAt(b, k));
      ValuesWithout(a, 0);
      ValuesWithout(b, k);
    }
  }

  /** The order in which a manifest lists its properties does not matter. */
  lemma PayloadIgnoresPropertyOrder(m: Manifest, n: Manifest)
    requires |m.masters| == |MASTER_KEYS| && m.masters == n.masters
    requires multiset(m.addresses) == multiset(n.addresses) && multiset(m.codeHashes) == multiset(n.codeHashes)
    ensures Payload(m) == Payload(n)
  {
    ValuesOfPermutation(m.addresses, n.addresses);
    ValuesOfPermutation(m.codeHashes, n.codeHashes);
    SortSorts(VestingValues(m.addresses));
    SortSorts(VestingValues(n.addresses));
    SortSorts(HashLines(m.codeHashes));
    SortSorts(HashLines(n.codeHashes));
    OrderedIsUnique(Sort(VestingValues(m.addresses)), Sort(VestingValues(n.addresses)));
    OrderedIsUnique(Sort(HashLines(m.codeHashes)), Sort(HashLines(n.codeHashes)));
  }

  /** Every line of the payload is one line. */
  ghost predicate SingleLines(m: Manifest) {
    |m.masters| == |MASTER_KEYS| && OneLineEach(PayloadLines(m))
  }

  lemma LabelledIsInjective(keys: seq<string>, a: seq<string>, b: seq<string>)
    requires |keys| == |a| == |b| && Labelled(keys, a) == Labelled(keys, b)
    ensures a == b
  {
    forall i | 0 <= i < |a| ensures a[i] == b[i] {
      var prefix := keys[i] + "=";
      assert (prefix + a[i])[|prefix|..] == a[i] && (prefix + b[i])[|prefix|..] == b[i];
      assert Labelled(keys, a)[i] == Labelled(keys, b)[i];
    }
  }

  /**
   * Two manifests share a payload exactly when they share all five masters and the list of vesting and code hash
   * lines taken together: a replaced master always shows, but the border between the two kinds of lines does not.
   */
  lemma PayloadSharedIff(m: Manifest, n: Manifest)
    requires SingleLines(m) && SingleLines(n)
    ensures Payload(m) == Payload(n) <==>
      m.masters == n.masters
      && VestingLines(m) + Sort(HashLines(m.codeHashes)) == VestingLines(n) + Sort(HashLines(n.codeHashes))
  {
    if Payload(m) == Payload(n) {
      SplitJoin(PayloadLines(m));
      SplitJoin(PayloadLines(n));
      var five := |MASTER_KEYS|;
      assert PayloadLines(m)[..five] == Labelled(MASTER_KEYS, m.masters);
      assert PayloadLines(n)[..five] == Labelled(MASTER_KEYS, n.masters);
      LabelledIsInjective(MASTER_KEYS, m.masters, n.masters);
      assert PayloadLines(m)[five..] == VestingLines(m) + Sort(HashLines(m.codeHashes));
      assert PayloadLines(n)[five..] == VestingLines(n) + Sort(HashLines(n.codeHashes));
    }
  }

  const VESTING_LABEL := "vesting="

  /** No printed code hash looks like the line of a vault. */
  predicate Separable(m: Manifest) {
    forall e <- m.codeHashes :: e.value != "" ==> !(VESTING_LABEL <= e.key + "=" + e.value)
  }

  lemma {:induction false} HashLinesOf(entries: seq<Entry>, line: string)
    requires line in HashLines(entries)
    ensures exists e <- entries :: e.value != "" && line == e.key + "=" + e.value
  {
    assert entries == [entries[0]] + entries[1..];
    if line !in (if entries[0].value != "" then [entries[0].key + "=" + entries[0].value] else []) {
      HashLinesOf(entries[1..], line);
    }
  }

  lemma SeparableLines(m: Manifest, line: string)
    requires Separable(m) && line in Sort(HashLines(m.codeHashes))
    ensures !(VESTING_LABEL <= line)
  {
    SortSorts(HashLines(m.codeHashes));
    assert line in multiset(HashLines(m.codeHashes));
    HashLinesOf(m.codeHashes, line);
  }

  lemma VestingLineLabelled(m: Manifest, i: nat)
    requires i < |VestingLines(m)|
    ensures VESTING_LABEL <= VestingLines(m)[i]
    ensures VestingLines(m)[i][|VESTING_LABEL|..] == Sort(VestingValues(m.addresses))[i]
  {
  }

  lemma CutElement(v: seq<string>, h: seq<string>, v': seq<string>, h': seq<string>)
    requires v + h == v' + h' && |v| < |v'|
    ensures h != [] && h[0] == v'[|v|] && h[0] in h
  {
    assert (v + h)[|v|] == (v' + h')[|v|];
    assert |v + h| == |v' + h'|;
  }

  /** A list of labelled lines followed by unlabelled ones can be cut in one place only. */
  lemma CutIsUnique(v: seq<string>, h: seq<string>, v': seq<string>, h': seq<string>)
    requires v + h == v' + h' && |v| <= |v'|
    requires (forall i :: 0 <= i < |v'| ==> VESTING_LABEL <= v'[i]) && forall l <- h :: !(VESTING_LABEL <= l)
    ensures v == v' && h == h'
  {
    if |v| < |v'| { CutElement(v, h, v', h'); }
    assert v == (v + h)[..|v|] && v' == (v' + h')[..|v'|];
    assert h == (v + h)[|v|..] && h' == (v' + h')[|v'|..];
  }

  lemma TailsSeparate(m: Manifest, n: Manifest)
    requires Separable(m) && Separable(n)
    requires VestingLines(m) + Sort(HashLines(m.codeHashes)) == VestingLines(n) + Sort(HashLines(n.codeHashes))
    ensures VestingLines(m) == VestingLines(n) && Sort(HashLines(m.codeHashes)) == Sort(HashLines(n.codeHashes))
  {
    var v, h, v', h' := VestingLines(m), Sort(HashLines(m.codeHashes)), VestingLines(n), Sort(HashLines(n.codeHashes));
    forall l <- h ensures !(VESTING_LABEL <= l) { SeparableLines(m, l); }
    forall l <- h' ensures !(VESTING_LABEL <= l) { SeparableLines(n, l); }
    forall i | 0 <= i < |v| ensures VESTING_LABEL <= v[i] { VestingLineLabelled(m, i); }
    forall i | 0 <= i < |v'| ensures VESTING_LABEL <= v'[i] { VestingLineLabelled(n, i); }
    if |v| <= |v'| { CutIsUnique(v, h, v', h'); } else { CutIsUnique(v', h', v, h); }
  }

  lemma SameLinesSameValues(m: Manifest, n: Manifest)
    requires VestingLines(m) == VestingLines(n)
    ensures Sort(VestingValues(m.addresses)) == Sort(VestingValues(n.addresses))
  {
    var a, b := Sort(VestingValues(m.addresses)), Sort(VestingValues(n.addresses));
    forall i | 0 <= i < |a| ensures a[i] == b[i] {
      VestingLineLabelled(m, i);
      VestingLineLabelled(n, i);
    }
  }

  lemma SameVestingLines(m: Manifest, n: Manifest)
    ensures VestingLines(m) == VestingLines(n)
      <==> multiset(VestingValues(m.addresses)) == multiset(VestingValues(n.addresses))
  {
    var a, b := Sort(VestingValues(m.addresses)), Sort(VestingValues(n.addresses));
    SortSorts(VestingValues(m.addresses));
    SortSorts(VestingValues(n.addresses));
    if multiset(a) == multiset(b) { OrderedIsUnique(a, b); }
    if VestingLines(m) == VestingLines(n) {
      SameLinesSameValues(m, n);
    }
  }

  lemma SameHashLines(m: Manifest, n: Manifest)
    ensures Sort(HashLines(m.codeHashes)) == Sort(HashLines(n.codeHashes))
      <==> multiset(HashLines(m.codeHashes)) == multiset(HashLines(n.codeHashes))
  {
    SortSorts(HashLines(m.codeHashes));
    SortSorts(HashLines(n.codeHashes));
    if multiset(HashLines(m.codeHashes)) == multiset(HashLines(n.codeHashes)) {
      OrderedIsUnique(Sort(HashLines(m.codeHashes)), Sort(HashLines(n.codeHashes)));
    }
  }

  /**
   * Between manifests without a code hash that prints like a vault, the payload tells everything apart: it is shared
   * exactly when masters, vault addresses and code hashes are the same, whatever their order.
   */
  lemma SeparablePayloadSharedIff(m: Manifest, n: Manifest)
    requires SingleLines(m) && SingleLines(n) && Separable(m) && Separable(n)
    ensures Payload(m) == Payload(n) <==>
      && m.masters == n.masters
      && multiset(VestingValues(m.addresses)) == multiset(VestingValues(n.addresses))
      && multiset(HashLines(m.codeHashes)) == multiset(HashLines(n.codeHashes))
  {
    PayloadSharedIff(m, n);
    SameVestingLines(m, n);
    SameHashLines(m, n);
    if VestingLines(m) + Sort(HashLines(m.codeHashes)) == VestingLines(n) + Sort(HashLines(n.codeHashes)) {
      TailsSeparate(m, n);
    }
  }

  /** The multiset of vesting values after one property got another value. */
  lemma ValuesAfterChange(entries: seq<Entry>, k: nat, x: string)
    requires k < |entries|
    ensures var key := entries[k].key;
      multiset(VestingValues(entries[k := Entry(key, x)])) + multiset(VestingValues([entries[k]]))
        == multiset(VestingValues(entries)) + multiset(VestingValues([Entry(key, x)]))
  {
    var changed := entries[k := Entry(entries[k].key, x)];
    assert RemoveAt(changed, k) == RemoveAt(entries, k);
    ValuesWithout(entries, k);
    ValuesWithout(changed, k);
  }

  lemma SameTailSameFront(v: seq<string>, v': seq<string>, h: seq<string>)
    requires v + h == v' + h
    ensures v == v'
  {
    assert |v + h| == |v' + h|;
    assert v == (v + h)[..|v|] && v' == (v' + h)[..|v'|];
  }

  lemma SumsDifferIff(x: multiset<string>, a: multiset<string>, y: multiset<string>, b: multiset<string>)
    requires x + a == y + b
    ensures x == y <==> a == b
  {
    assert a == (x + a) - x && b == (y + b) - y;
    assert x == (x + a) - a && y == (y + b) - b;
  }

  function ValueOf(e: Entry): multiset<string> { multiset(VestingValues([e])) }

  lemma OneValueDiffersIff(key: string, x: string, y: string)
    requires x != y
    ensures ValueOf(Entry(key, x)) != ValueOf(Entry(key, y)) <==> "vesting" <= key
  {
    OneEntry(Entry(key, x));
    OneEntry(Entry(key, y));
    if "vesting" <= key {
      assert x != "" ==> x in ValueOf(Entry(key, x)) && x !in ValueOf(Entry(key, y));
      assert y != "" ==> y in ValueOf(Entry(key, y)) && y !in ValueOf(Entry(key, x));
    }
  }

  lemma ChangedValuesDifferIff(entries: seq<Entry>, k: nat, x: string)
    requires k < |entries| && x != entries[k].value
    ensures multiset(VestingValues(entries[k := Entry(entries[k].key, x)])) != multiset(VestingValues(entries))
      <==> "vesting" <= entries[k].key
  {
    var was, changed := entries[k], Entry(entries[k].key, x);
    ValuesAfterChange(entries, k, x);
    SumsDifferIff(multiset(VestingValues(entries[k := changed])), ValueOf(was), multiset(VestingValues(entries)),
      ValueOf(changed));
    OneValueDiffersIff(was.key, was.value, x);
  }

  /**
   * Another value for one address property that is no master shows in the payload exactly when its key begins with
   * "vesting": a vault that is replaced, added or removed always shows, and no other property ever does.
   */
  lemma ChangedPropertyShowsIff(m: Manifest, n: Manifest, k: nat, x: string)
    requires k < |m.addresses| && x != m.addresses[k].value
    requires n == m.(addresses := m.addresses[k := Entry(m.addresses[k].key, x)]) && SingleLines(m) && SingleLines(n)
    ensures Payload(m) != Payload(n) <==> "vesting" <= m.addresses[k].key
  {
    ChangedValuesDifferIff(m.addresses, k, x);
    PayloadSharedIff(m, n);
    SameVestingLines(m, n);
    if Payload(m) == Payload(n) {
      SameTailSameFront(VestingLines(m), VestingLines(n), Sort(HashLines(m.codeHashes)));
    }
  }

  /** The printed line of a code hash; an empty one is not printed. */
  function Printed(e: Entry): seq<string> { if e.value == "" then [] else [e.key + "=" + e.value] }

  lemma HashesAfterChange(entries: seq<Entry>, k: nat, e: Entry)
    requires k < |entries|
    ensures multiset(HashLines(entries[k := e])) + multiset(Printed(entries[k]))
      == multiset(HashLines(entries)) + multiset(Printed(e))
  {
    var changed := entries[k := e];
    assert RemoveAt(changed, k) == RemoveAt(entries, k);
    ValuesWithout(entries, k);
    ValuesWithout(changed, k);
    OneEntry(entries[k]);
    OneEntry(e);
  }

  lemma ChangedHashLinesDifferIff(entries: seq<Entry>, k: nat, e: Entry)
    requires k < |entries|
    ensures multiset(HashLines(entries[k := e])) == multiset(HashLines(entries)) <==> Printed(e) == Printed(entries[k])
  {
    var before, after := multiset(HashLines(entries)), multiset(HashLines(entries[k := e]));
    HashesAfterChange(entries, k, e);
    SumsDifferIff(after, multiset(Printed(entries[k])), before, multiset(Printed(e)));
    if multiset(Printed(entries[k])) == multiset(Printed(e)) { SameLine(Printed(e), Printed(entries[k])); }
  }

  lemma SameLine(a: seq<string>, b: seq<string>)
    requires |a| <= 1 && |b| <= 1 && multiset(a) == multiset(b)
    ensures a == b
  {
    if a != [] { assert a[0] in multiset(b); }
    if b != [] { assert b[0] in multiset(a); }
  }

  lemma SameFrontSameTail(v: seq<string>, h: seq<string>, h': seq<string>)
    requires v + h == v + h'
    ensures h == h'
  {
    assert h == (v + h)[|v|..] && h' == (v + h')[|v|..];
  }

  /** A code hash that is replaced, renamed, added or removed shows in the payload exactly when its line changes. */
  lemma ChangedHashShowsIff(m: Manifest, n: Manifest, k: nat, e: Entry)
    requires k < |m.codeHashes| && n == m.(codeHashes := m.codeHashes[k := e]) && SingleLines(m) && SingleLines(n)
    ensures Payload(m) == Payload(n) <==> Printed(e) == Printed(m.codeHashes[k])
  {
    ChangedHashLinesDifferIff(m.codeHashes, k, e);
    PayloadSharedIff(m, n);
    SameHashLines(m, n);
    if Payload(m) == Payload(n) {
      SameFrontSameTail(VestingLines(m), Sort(HashLines(m.codeHashes)), Sort(HashLines(n.codeHashes)));
    }
  }

  /** The lines of a manifest with two vaults and one code hash, in full; the vaults come out in order. */
  lemma PayloadText(a: string, b: string, c: string, d: string, e: string)
    ensures var m := Manifest([a, b, c, d, e], [Entry("vestingReserve", "EQb"), Entry("vestingDeveloper", "EQa")],
                              [Entry("governor", "0f")]);
      PayloadLines(m) ==
        ["jettonMaster=" + a, "stakingMaster=" + b, "governor=" + c, "timelock=" + d, "treasury=" + e,
         "vesting=EQa", "vesting=EQb", "governor=0f"]
  {
    var x, y, h := Entry("vestingReserve", "EQb"), Entry("vestingDeveloper", "EQa"), Entry("governor", "0f");
    TwoVaults(x, y);
    VaultLines(Manifest([a, b, c, d, e], [x, y], [h]));
    HashLine(h);
    MasterLines(a, b, c, d, e);
  }

  lemma VaultLines(m: Manifest)
    requires Sort(VestingValues(m.addresses)) == ["EQa", "EQb"]
    ensures VestingLines(m) == ["vesting=EQa", "vesting=EQb"]
  {
    assert "vesting=" + "EQa" == "vesting=EQa" && "vesting=" + "EQb" == "vesting=EQb";
  }

  lemma HashLine(h: Entry)
    requires h == Entry("governor", "0f")
    ensures Sort(HashLines([h])) == ["governor=0f"]
  {
    OneEntry(h);
    SortOne("governor=0f");
    assert "governor" + "=" + "0f" == "governor=0f";
  }

  lemma MasterLines(a: string, b: string, c: string, d: string, e: string)
    ensures Labelled(MASTER_KEYS, [a, b, c, d, e]) ==
      ["jettonMaster=" + a, "stakingMaster=" + b, "governor=" + c, "timelock=" + d, "treasury=" + e]
  {
    assert MASTER_KEYS[0] + "=" == "jettonMaster=" && MASTER_KEYS[1] + "=" == "stakingMaster=";
    assert MASTER_KEYS[2] + "=" == "governor=" && MASTER_KEYS[3] + "=" == "timelock=";
    assert MASTER_KEYS[4] + "=" == "treasury=";
  }

  lemma TwoVaults(x: Entry, y: Entry)
    requires x == Entry("vestingReserve", "EQb") && y == Entry("vestingDeveloper", "EQa")
    ensures Sort(VestingValues([x, y])) == ["EQa", "EQb"]
  {
    assert "vestingReserve"[..7] == "vesting" && "vestingDeveloper"[..7] == "vesting";
    OneEntry(x);
    OneEntry(y);
    assert [x, y][1..] == [y];
    assert VestingValues([x, y]) == ["EQb", "EQa"];
    assert ["EQb", "EQa"][1..] == ["EQa"];
    SortOne("EQa");
    var p, q := "EQb", "EQa";
    assert p[1..] == "Qb" && q[1..] == "Qa" && p[1..][1..] == "b" && q[1..][1..] == "a";
    assert !Before("b", "a");
    assert !Before("Qb", "Qa");
    assert !Before(p, q);
    assert Insert(p, [q]) == [q] + Insert(p, []);
  }

  /** The failing family: a vault address and a code hash filed under "vesting" print alike. */
  lemma VaultAndHashCollide(masters: seq<string>, x: string)
    requires |masters| == |MASTER_KEYS| && x != ""
    ensures !Separable(Manifest(masters, [], [Entry("vesting", x)]))
    ensures Payload(Manifest(masters, [Entry("vestingReserve", x)], []))
      == Payload(Manifest(masters, [], [Entry("vesting", x)]))
  {
    var vault, hash := Entry("vestingReserve", x), Entry("vesting", x);
    var m, n := Manifest(masters, [vault], []), Manifest(masters, [], [hash]);
    assert "vestingReserve"[..7] == "vesting";
    OneEntry(vault);
    OneEntry(hash);
    SortOne(x);
    SortOne("vesting" + "=" + x);
    assert VestingLines(m) == ["vesting=" + x];
    assert "vesting" + "=" + x == "vesting=" + x;
    assert PayloadLines(m) == PayloadLines(n);
    assert hash in n.codeHashes && VESTING_LABEL <= hash.key + "=" + hash.value;
  }

  lemma SortOne(line: string)
    ensures Sort([line]) == [line]
  {
    assert [line][1..] == [];
  }
}
