/** The canonical query string that a request signature covers: split, drop the signature, sort by key, join. */
module QueryString {
  import opened Prelude
  import opened Decimal

  datatype Pair = Pair(key: string, value: string, hadEq: bool)

  const SIGNATURE: string := "signature"

  function Split(s: string): (parts: seq<string>)
    ensures parts != []
    decreases |s|
  {
    var i := IndexOf(s, '&');
    if i == |s| then [s] else [s[..i]] + Split(s[i + 1..])
  }

  function Join(parts: seq<string>): string {
    if parts == [] then "" else if |parts| == 1 then parts[0] else parts[0] + "&" + Join(parts[1..])
  }

  function ParsePair(kv: string): Option<Pair> {
    var i := IndexOf(kv, '=');
    var key := kv[..i];
    if key == SIGNATURE then None
    else if i < |kv| then Some(Pair(key, kv[i + 1..], true))
    else Some(Pair(kv, "", false))
  }

  function Print(p: Pair): string {
    if p.hadEq then p.key + "=" + p.value else p.key
  }

  /** Every part that is not the signature. */
  function ParseAll(parts: seq<string>): seq<Pair> {
    if parts == [] then []
    else
      match ParsePair(parts[0])
      case Some(p) => [p] + ParseAll(parts[1..])
      case None => ParseAll(parts[1..])
  }

  function PrintAll(pairs: seq<Pair>): (parts: seq<string>)
    ensures |parts| == |pairs| && forall i :: 0 <= i < |pairs| ==> parts[i] == Print(pairs[i])
  {
    seq(|pairs|, i requires 0 <= i < |pairs| => Print(pairs[i]))
  }

  function Pairs(query: string): seq<Pair> {
    ParseAll(Split(query))
  }

  /** Keys compare as strings do: by code point, a prefix first. */
  predicate Before(a: string, b: string) {
    a == "" || (b != "" && (a[0] < b[0] || (a[0] == b[0] && Before(a[1..], b[1..]))))
  }

  /** Puts `p`, which came first, ahead of every pair with the same key. */
  function Insert(p: Pair, s: seq<Pair>): seq<Pair> {
    if s == [] || Before(p.key, s[0].key) then [p] + s else [s[0]] + Insert(p, s[1..])
  }

  /** The stable sort by key. */
  function StableSort(s: seq<Pair>): seq<Pair> {
    if s == [] then [] else Insert(s[0], StableSort(s[1..]))
  }

  function Canonical(query: string): string {
    if query == "" then "" else Join(PrintAll(StableSort(Pairs(query))))
  }

  // ---------------------------------------------------------------- the key order

  lemma {:induction false} BeforeTotal(a: string, b: string)
    ensures Before(a, b) || Before(b, a)
    decreases |a|
  {
    if a != "" && b != "" {
      BeforeTotal(a[1..], b[1..]);
    }
  }

  lemma {:induction false} BeforeAntisymmetric(a: string, b: string)
    requires Before(a, b) && Before(b, a)
    ensures a == b
    decreases |a|
  {
    if a != "" && b != "" {
      BeforeAntisymmetric(a[1..], b[1..]);
      assert a == [a[0]] + a[1..] && b == [b[0]] + b[1..];
    }
  }

  lemma {:induction false} BeforeTransitive(a: string, b: string, c: string)
    requires Before(a, b) && Before(b, c)
    ensures Before(a, c)
    decreases |a|
  {
    if a != "" && a[0] == b[0] == c[0] {
      BeforeTransitive(a[1..], b[1..], c[1..]);
    }
  }

  /** The strings agree up to `i`, where `a` has the smaller character. */
  predicate FirstLess(a: string, b: string, i: nat) {
    i < |a| && i < |b| && a[i] < b[i] && forall j :: 0 <= j < i ==> a[j] == b[j]
  }

  predicate IsPrefix(a: string, b: string) {
    |a| <= |b| && forall j :: 0 <= j < |a| ==> a[j] == b[j]
  }

  /** The key order is that of code points: a prefix comes first, and otherwise the first difference decides. */
  lemma {:induction false} BeforeIsCodePointOrder(a: string, b: string)
    ensures Before(a, b) <==> IsPrefix(a, b) || exists i :: FirstLess(a, b, i)
    decreases |a|
  {
    if a != "" && b != "" && a[0] == b[0] {
      var a', b' := a[1..], b[1..];
      BeforeIsCodePointOrder(a', b');
      if Before(a', b') {
        if i: nat :| FirstLess(a', b', i) {
          assert FirstLess(a, b, i + 1);
        } else {
          assert IsPrefix(a, b);
        }
      }
      if i: nat :| FirstLess(a, b, i) {
        assert FirstLess(a', b', i - 1);
      }
      if IsPrefix(a, b) {
        assert forall j :: 0 <= j < |a'| ==> a'[j] == a[j + 1] && b'[j] == b[j + 1];
      }
    } else if a != "" && b != "" && a[0] < b[0] {
      assert FirstLess(a, b, 0);
    }
  }

  // ---------------------------------------------------------------- the stable sort

  ghost predicate Sorted(s: seq<Pair>) {
    forall i, j :: 0 <= i < j < |s| ==> Before(s[i].key, s[j].key)
  }

  /** The pairs with one key, in order. */
  ghost function ByKey(s: seq<Pair>, key: string): seq<Pair> {
    if s == [] then [] else (if s[0].key == key then [s[0]] else []) + ByKey(s[1..], key)
  }

  /** The same pairs under every key, in the same order. */
  ghost predicate SameByKey(a: seq<Pair>, b: seq<Pair>) {
    forall key :: ByKey(a, key) == ByKey(b, key)
  }

  lemma {:induction false} InsertKeepsPairs(p: Pair, s: seq<Pair>)
    ensures multiset(Insert(p, s)) == multiset(s) + multiset{p}
  {
    if s != [] && !Before(p.key, s[0].key) {
      InsertKeepsPairs(p, s[1..]);
      assert s == [s[0]] + s[1..];
    }
  }

  lemma {:induction false} InsertSorts(p: Pair, s: seq<Pair>)
    requires Sorted(s)
    ensures Sorted(Insert(p, s))
  {
    var r := Insert(p, s);
    if s == [] || Before(p.key, s[0].key) {
      forall j | 0 < j < |r| ensures Before(p.key, r[j].key) {
        if j > 1 {
          BeforeTransitive(p.key, s[0].key, s[j - 1].key);
        }
      }
    } else {
      InsertSorts(p, s[1..]);
      InsertKeepsPairs(p, s[1..]);
      BeforeTotal(p.key, s[0].key);
      forall j | 0 < j < |r| ensures Before(r[0].key, r[j].key) {
        assert r[j] in multiset(Insert(p, s[1..]));
        if r[j] != p {
          assert r[j] in s[1..];
        }
      }
    }
  }

  lemma {:induction false} InsertIsStable(p: Pair, s: seq<Pair>, key: string)
    ensures ByKey(Insert(p, s), key) == ByKey([p] + s, key)
  {
    assert ([p] + s)[1..] == s;
    if s != [] && !Before(p.key, s[0].key) {
      InsertIsStable(p, s[1..], key);
      BeforeTotal(p.key, s[0].key);
      assert ([s[0]] + Insert(p, s[1..]))[1..] == Insert(p, s[1..]);
      assert ([p] + s[1..])[1..] == s[1..];
    }
  }

  /** Sorting sorts, keeps every pair, and keeps pairs with one key in order. */
  lemma {:induction false} SortIsStable(s: seq<Pair>)
    ensures Sorted(StableSort(s))
    ensures multiset(StableSort(s)) == multiset(s)
    ensures SameByKey(StableSort(s), s)
  {
    if s != [] {
      var rest := StableSort(s[1..]);
      SortIsStable(s[1..]);
      InsertSorts(s[0], rest);
      InsertKeepsPairs(s[0], rest);
      assert s == [s[0]] + s[1..];
      forall key ensures ByKey(StableSort(s), key) == ByKey(s, key) {
        InsertIsStable(s[0], rest, key);
        assert ([s[0]] + rest)[1..] == rest;
      }
    }
  }

  lemma {:induction false} ByKeyHas(s: seq<Pair>, i: nat)
    requires i < |s|
    ensures ByKey(s, s[i].key) != []
  {
    if i > 0 {
      ByKeyHas(s[1..], i - 1);
    }
  }

  lemma {:induction false} ByKeyFrom(s: seq<Pair>, key: string) returns (i: nat)
    requires ByKey(s, key) != []
    ensures i < |s| && s[i].key == key
  {
    if s[0].key == key {
      i := 0;
    } else {
      i := ByKeyFrom(s[1..], key);
      i := i + 1;
    }
  }

  lemma BeforeSelf(a: string)
    ensures Before(a, a)
  {
  }

  /** The first key of a sorted list comes no later than any key of a list with the same pairs by key. */
  lemma FirstKeyLeast(a: seq<Pair>, b: seq<Pair>)
    requires Sorted(a) && SameByKey(a, b) && b != []
    ensures a != [] && Before(a[0].key, b[0].key)
  {
    ByKeyHas(b, 0);
    assert ByKey(a, b[0].key) == ByKey(b, b[0].key);
    var i := ByKeyFrom(a, b[0].key);
    BeforeSelf(a[0].key);
  }

  lemma TailSameByKey(a: seq<Pair>, b: seq<Pair>)
    requires a != [] && b != [] && a[0] == b[0] && SameByKey(a, b)
    ensures SameByKey(a[1..], b[1..])
  {
    forall key ensures ByKey(a[1..], key) == ByKey(b[1..], key) {
      var head := if a[0].key == key then [a[0]] else [];
      assert ByKey(a, key) == head + ByKey(a[1..], key);
      assert ByKey(b, key) == head + ByKey(b[1..], key);
      assert ByKey(a, key)[|head|..] == ByKey(a[1..], key);
      assert ByKey(b, key)[|head|..] == ByKey(b[1..], key);
    }
  }

  /** Only one list is sorted and has given pairs under each key: any stable sort agrees. */
  lemma {:induction false} StableSortIsUnique(a: seq<Pair>, b: seq<Pair>)
    requires Sorted(a) && Sorted(b) && SameByKey(a, b)
    ensures a == b
    decreases |a|
  {
    if b != [] {
      FirstKeyLeast(a, b);
      FirstKeyLeast(b, a);
      BeforeAntisymmetric(a[0].key, b[0].key);
      assert a[0] == ByKey(a, a[0].key)[0] == ByKey(b, b[0].key)[0] == b[0];
      TailSameByKey(a, b);
      StableSortIsUnique(a[1..], b[1..]);
      assert a == [a[0]] + a[1..] && b == [b[0]] + b[1..];
    } else if a != [] {
      FirstKeyLeast(b, a);
    }
  }

  lemma SortedIsFixed(s: seq<Pair>)
    requires Sorted(s)
    ensures StableSort(s) == s
  {
  }

  // ---------------------------------------------------------------- splitting and joining

  lemma {:induction false} SplitsClean(s: string)
    ensures forall i :: 0 <= i < |Split(s)| ==> '&' !in Split(s)[i]
    decreases |s|
  {
    var i := IndexOf(s, '&');
    if i < |s| {
      SplitsClean(s[i + 1..]);
    }
  }

  lemma IndexOfSeparator(a: string, c: char, rest: string)
    requires c !in a
    ensures IndexOf(a + [c] + rest, c) == |a|
    ensures IndexOf(a, c) == |a|
  {
    var s := a + [c] + rest;
    assert s[|a|] == c;
    assert forall j :: 0 <= j < |a| ==> s[j] == a[j];
  }

  lemma {:induction false} SplitJoin(parts: seq<string>)
    requires parts != [] && forall i :: 0 <= i < |parts| ==> '&' !in parts[i]
    ensures Split(Join(parts)) == parts
    decreases |parts|
  {
    var head, s := parts[0], Join(parts);
    if |parts| == 1 {
      IndexOfSeparator(head, '&', "");
    } else {
      var rest := Join(parts[1..]);
      IndexOfSeparator(head, '&', rest);
      assert s == head + ['&'] + rest;
      assert s[..|head|] == head && s[|head| + 1..] == rest;
      SplitJoin(parts[1..]);
      assert parts == [head] + parts[1..];
    }
  }

  // ---------------------------------------------------------------- printing and parsing pairs

  /** What parsing one part can yield. */
  ghost predicate IsParsed(p: Pair) {
    && '&' !in Print(p) && '=' !in p.key && p.key != SIGNATURE
    && (!p.hadEq ==> p.value == "")
  }

  lemma ParseThenPrint(kv: string)
    requires '&' !in kv && ParsePair(kv).Some?
    ensures IsParsed(ParsePair(kv).value) && Print(ParsePair(kv).value) == kv
  {
    var i := IndexOf(kv, '=');
    if i < |kv| {
      assert kv == kv[..i] + "=" + kv[i + 1..];
    } else {
      assert kv[..i] == kv;
    }
  }

  lemma PrintThenParse(p: Pair)
    requires IsParsed(p)
    ensures ParsePair(Print(p)) == Some(p)
  {
    var s := Print(p);
    IndexOfSeparator(p.key, '=', p.value);
    if p.hadEq {
      assert s == p.key + ['='] + p.value;
      assert s[..|p.key|] == p.key && s[|p.key| + 1..] == p.value;
    } else {
      assert s[..|p.key|] == p.key;
    }
  }

  lemma {:induction false} ParsedPairs(parts: seq<string>)
    requires forall i :: 0 <= i < |parts| ==> '&' !in parts[i]
    ensures forall p :: p in ParseAll(parts) ==> IsParsed(p)
  {
    if parts != [] {
      ParsedPairs(parts[1..]);
      if ParsePair(parts[0]).Some? {
        ParseThenPrint(parts[0]);
      }
    }
  }

  lemma {:induction false} PrintAllThenParse(pairs: seq<Pair>)
    requires forall p :: p in pairs ==> IsParsed(p)
    ensures ParseAll(PrintAll(pairs)) == pairs
  {
    if pairs != [] {
      PrintThenParse(pairs[0]);
      PrintAllThenParse(pairs[1..]);
      assert PrintAll(pairs)[1..] == PrintAll(pairs[1..]);
      assert pairs == [pairs[0]] + pairs[1..];
    }
  }

  lemma PairsAreParsed(query: string)
    ensures forall p :: p in Pairs(query) ==> IsParsed(p)
  {
    SplitsClean(query);
    ParsedPairs(Split(query));
  }

  // ---------------------------------------------------------------- the canonical string

  /** The empty query stands for one bare empty key, so the early return changes nothing. */
  lemma EmptyQuery()
    ensures Pairs("") == [Pair("", "", false)]
    ensures Canonical("") == Join(PrintAll(StableSort(Pairs(""))))
  {
  }

  lemma CanonicalIsJoined(query: string)
    ensures Canonical(query) == Join(PrintAll(StableSort(Pairs(query))))
  {
  }

  /** What a query comes down to: its pairs, or the bare empty key if nothing but signatures is left. */
  function Effective(query: string): seq<Pair> {
    if Pairs(query) == [] then [Pair("", "", false)] else Pairs(query)
  }

  lemma SortKeepsParsed(pairs: seq<Pair>)
    requires pairs != [] && forall p :: p in pairs ==> IsParsed(p)
    ensures StableSort(pairs) != [] && forall p :: p in StableSort(pairs) ==> IsParsed(p)
  {
    var s := StableSort(pairs);
    SortIsStable(pairs);
    assert |multiset(s)| == |multiset(pairs)|;
    forall p | p in s ensures IsParsed(p) {
      assert p in multiset(s);
      assert p in pairs;
    }
  }

  lemma SignaturesReadBack(query: string)
    requires Pairs(query) == []
    ensures Canonical(query) == "" && Pairs("") == StableSort(Effective(query))
  {
    CanonicalIsJoined(query);
    EmptyQuery();
    SortedIsFixed(Pairs(""));
  }

  lemma PairsReadBack(query: string)
    requires Pairs(query) != []
    ensures Pairs(Canonical(query)) == StableSort(Pairs(query))
  {
    CanonicalIsJoined(query);
    PairsAreParsed(query);
    SortKeepsParsed(Pairs(query));
    PrintedReadsBack(StableSort(Pairs(query)));
  }

  /** Reading the canonical string gives the effective pairs in sorted order. */
  lemma CanonicalReadsBack(query: string)
    ensures Pairs(Canonical(query)) == StableSort(Effective(query))
  {
    if Pairs(query) == [] {
      SignaturesReadBack(query);
    } else {
      PairsReadBack(query);
    }
  }

  lemma PrintedReadsBack(s: seq<Pair>)
    requires s != [] && forall p :: p in s ==> IsParsed(p)
    ensures Pairs(Join(PrintAll(s))) == s
  {
    forall i | 0 <= i < |s| ensures '&' !in PrintAll(s)[i] {
      assert IsParsed(s[i]);
    }
    SplitJoin(PrintAll(s));
    PrintAllThenParse(s);
  }

  /** Exactly the pairs that are not the signature survive, unless none do. */
  lemma KeepsPairsIffAnyRemain(query: string)
    ensures multiset(Pairs(Canonical(query))) == multiset(Pairs(query)) <==> Pairs(query) != []
    ensures Pairs(query) == [] ==> Canonical(query) == ""
  {
    CanonicalReadsBack(query);
    SortIsStable(Effective(query));
    CanonicalIsJoined(query);
  }

  lemma OnePart(q: string)
    requires '&' !in q
    ensures Split(q) == [q] && Pairs(q) == if ParsePair(q).Some? then [ParsePair(q).value] else []
  {
    IndexOfSeparator(q, '&', "");
    assert ParseAll([q][1..]) == [];
  }

  lemma KeyAndValue(key: string, value: string)
    requires '=' !in key
    ensures ParsePair(key + ['='] + value) == if key == SIGNATURE then None else Some(Pair(key, value, true))
  {
    var kv := key + ['='] + value;
    IndexOfSeparator(key, '=', value);
    assert kv[..|key|] == key && kv[|key| + 1..] == value;
  }

  /** A non-empty query of one signature: nothing is left of it. */
  lemma SignatureOnly(value: string)
    requires '&' !in value
    ensures Pairs(SIGNATURE + ['='] + value) == [] && Canonical(SIGNATURE + ['='] + value) == ""
  {
    KeyAndValue(SIGNATURE, value);
    OnePart(SIGNATURE + ['='] + value);
    SignaturesReadBack(SIGNATURE + ['='] + value);
  }

  /** Canonicalising twice changes nothing. */
  lemma CanonicalIsIdempotent(query: string)
    ensures Canonical(Canonical(query)) == Canonical(query)
  {
    var s := StableSort(Effective(query));
    CanonicalReadsBack(query);
    CanonicalIsJoined(Canonical(query));
    SortIsStable(Effective(query));
    SortedIsFixed(s);
    EffectiveJoins(query);
  }

  lemma EffectiveJoins(query: string)
    ensures Canonical(query) == Join(PrintAll(StableSort(Effective(query))))
  {
  }

  /** Two queries are signed alike exactly when they have the same pairs under each key, in the same order. */
  lemma SameCanonicalIff(q1: string, q2: string)
    ensures Canonical(q1) == Canonical(q2) <==> SameByKey(Effective(q1), Effective(q2))
  {
    var s1, s2 := StableSort(Effective(q1)), StableSort(Effective(q2));
    SortIsStable(Effective(q1));
    SortIsStable(Effective(q2));
    if Canonical(q1) == Canonical(q2) {
      CanonicalReadsBack(q1);
      CanonicalReadsBack(q2);
      forall key ensures ByKey(Effective(q1), key) == ByKey(Effective(q2), key) {
        assert ByKey(s1, key) == ByKey(Effective(q1), key);
        assert ByKey(s2, key) == ByKey(Effective(q2), key);
      }
    }
    if SameByKey(Effective(q1), Effective(q2)) {
      StableSortIsUnique(s1, s2);
      EffectiveJoins(q1);
      EffectiveJoins(q2);
    }
  }
}
