/** The string an admin request is signed over: sorted query string and six joined lines. */
module Canonical {

  // ---- splitting and joining ------------------------------------------------------------

  /** Split at every `sep`; there is always at least one piece. */
  function Split(s: string, sep: char): (r: seq<string>)
    ensures |r| >= 1
  {
    if s == "" then [""]
    else
      var rest := Split(s[1..], sep);
      if s[0] == sep then [""] + rest else [[s[0]] + rest[0]] + rest[1..]
  }

  function Join(parts: seq<string>, sep: char): string {
    if parts == [] then ""
    else if |parts| == 1 then parts[0]
    else parts[0] + [sep] + Join(parts[1..], sep)
  }

  predicate Free(s: string, c: char) { c !in s }

  lemma {:induction false} SplitFree(s: string, sep: char)
    requires Free(s, sep)
    ensures Split(s, sep) == [s]
  {
    if s != "" {
      SplitFree(s[1..], sep);
      assert [s[0]] + s[1..] == s;
    }
  }

  lemma {:induction false} SplitPieces(s: string, sep: char)
    ensures forall p <- Split(s, sep) :: Free(p, sep)
  {
    if s != "" {
      SplitPieces(s[1..], sep);
      var rest := Split(s[1..], sep);
      assert rest[0] in rest;
    }
  }

  lemma {:induction false} SplitAfter(a: string, b: string, sep: char)
    requires Free(a, sep)
    ensures Split(a + [sep] + b, sep) == [a] + Split(b, sep)
  {
    var s := a + [sep] + b;
    if a == "" {
      assert s[1..] == b;
    } else {
      assert s[1..] == a[1..] + [sep] + b;
      SplitAfter(a[1..], b, sep);
      assert [a[0]] + a[1..] == a;
      assert ([a[1..]] + Split(b, sep))[1..] == Split(b, sep);
    }
  }

  /** Joining pieces free of the separator loses nothing. */
  lemma {:induction false} SplitJoin(parts: seq<string>, sep: char)
    requires parts != [] && forall p <- parts :: Free(p, sep)
    ensures Split(Join(parts, sep), sep) == parts
  {
    assert parts[0] in parts;
    if |parts| == 1 {
      SplitFree(parts[0], sep);
      assert parts == [parts[0]];
    } else {
      SplitJoin(parts[1..], sep);
      SplitAfter(parts[0], Join(parts[1..], sep), sep);
      assert parts == [parts[0]] + parts[1..];
    }
  }

  // ---- pairs ----------------------------------------------------------------------------

  datatype Pair = Pair(key: string, value: string)

  /** Cut at the first `=`; without one the value is empty. */
  function ParsePair(kv: string): Pair {
    if kv == "" then Pair("", "")
    else if kv[0] == '=' then Pair("", kv[1..])
    else var p := ParsePair(kv[1..]); Pair([kv[0]] + p.key, p.value)
  }

  function Show(p: Pair): string { p.key + "=" + p.value }

  predicate Clean(p: Pair) { Free(p.key, '=') && Free(p.key, '&') && Free(p.value, '&') }

  lemma {:induction false} ParseShow(p: Pair)
    requires Clean(p)
    ensures ParsePair(Show(p)) == p && Free(Show(p), '&')
    decreases |p.key|
  {
    if p.key == "" {
      assert Show(p)[1..] == p.value;
    } else {
      assert Show(p)[1..] == Show(Pair(p.key[1..], p.value));
      ParseShow(Pair(p.key[1..], p.value));
      assert [p.key[0]] + p.key[1..] == p.key;
    }
  }

  lemma {:induction false} ParseClean(kv: string)
    requires Free(kv, '&')
    ensures Clean(ParsePair(kv))
  {
    if kv != "" && kv[0] != '=' {
      ParseClean(kv[1..]);
    }
  }

  function NonEmpty(parts: seq<string>): seq<string> {
    if parts == [] then [] else (if parts[0] != "" then [parts[0]] else []) + NonEmpty(parts[1..])
  }

  function ParseAll(parts: seq<string>): seq<Pair> {
    if parts == [] then [] else [ParsePair(parts[0])] + ParseAll(parts[1..])
  }

  function ShowAll(pairs: seq<Pair>): seq<string> {
    if pairs == [] then [] else [Show(pairs[0])] + ShowAll(pairs[1..])
  }

  /** The pairs of a query string, in order. */
  function Pairs(qs: string): seq<Pair> { ParseAll(NonEmpty(Split(qs, '&'))) }

  // ---- stable sorting by key ------------------------------------------------------------

  /** Order of strings by code unit. */
  predicate Less(a: string, b: string) {
    if b == "" then false
    else if a == "" then true
    else a[0] < b[0] || (a[0] == b[0] && Less(a[1..], b[1..]))
  }

  /** Put `p` in front of the first pair whose key is not smaller. */
  function Insert(p: Pair, s: seq<Pair>): seq<Pair> {
    if s == [] then [p]
    else if Less(s[0].key, p.key) then [s[0]] + Insert(p, s[1..])
    else [p] + s
  }

  function Sort(s: seq<Pair>): seq<Pair> { if s == [] then [] else Insert(s[0], Sort(s[1..])) }

  function SortQueryString(qs: string): string { Join(ShowAll(Sort(Pairs(qs))), '&') }

  /** The values given for one key, in order. */
  function Values(s: seq<Pair>, key: string): seq<string> {
    if s == [] then [] else (if s[0].key == key then [s[0].value] else []) + Values(s[1..], key)
  }

  predicate Ordered(s: seq<Pair>) { forall i, j :: 0 <= i < j < |s| ==> !Less(s[j].key, s[i].key) }

  lemma {:induction false} LessIrreflexive(a: string)
    ensures !Less(a, a)
  {
    if a != "" { LessIrreflexive(a[1..]); }
  }

  lemma {:induction false} LessTotal(a: string, b: string)
    ensures a == b || Less(a, b) || Less(b, a)
  {
    if a != "" && b != "" && a[0] == b[0] {
      LessTotal(a[1..], b[1..]);
      assert a == [a[0]] + a[1..] && b == [b[0]] + b[1..];
    }
  }

  lemma {:induction false} LessTransitive(a: string, b: string, c: string)
    requires Less(a, b) && Less(b, c)
    ensures Less(a, c)
  {
    if a != "" && a[0] == b[0] && b[0] == c[0] {
      LessTransitive(a[1..], b[1..], c[1..]);
    }
  }

  /** Not-less is transitive too, the order being total. */
  lemma {:induction false} NotLessTransitive(a: string, b: string, c: string)
    requires !Less(b, a) && !Less(c, b)
    ensures !Less(c, a)
  {
    if Less(c, a) {
      LessTotal(a, b);
      LessTotal(b, c);
      if a != b { LessTransitive(c, a, b); }
    }
  }

  lemma {:induction false} InsertMultiset(p: Pair, s: seq<Pair>)
    ensures multiset(Insert(p, s)) == multiset(s) + multiset{p}
  {
    if s != [] && Less(s[0].key, p.key) {
      InsertMultiset(p, s[1..]);
      assert s == [s[0]] + s[1..];
    }
  }

  lemma {:induction false} SortMultiset(s: seq<Pair>)
    ensures multiset(Sort(s)) == multiset(s)
  {
    if s != [] {
      SortMultiset(s[1..]);
      InsertMultiset(s[0], Sort(s[1..]));
      assert s == [s[0]] + s[1..];
    }
  }

  lemma {:induction false} InsertOrdered(p: Pair, s: seq<Pair>)
    requires Ordered(s)
    ensures Ordered(Insert(p, s))
  {
    if s != [] {
      var rest := s[1..];
      assert Ordered(rest);
      if Less(s[0].key, p.key) {
        InsertOrdered(p, rest);
        InsertMultiset(p, rest);
        var r := Insert(p, rest);
        forall j | 0 <= j < |r| ensures !Less(r[j].key, s[0].key) {
          assert r[j] in multiset(r);
          if r[j] == p {
            if Less(p.key, s[0].key) { LessTransitive(s[0].key, p.key, s[0].key); LessIrreflexive(s[0].key); }
          } else {
            assert r[j] in rest;
          }
        }
      } else {
        forall j | 0 <= j < |s| ensures !Less(s[j].key, p.key) {
          if j > 0 { NotLessTransitive(p.key, s[0].key, s[j].key); }
        }
      }
    }
  }

  lemma {:induction false} SortOrdered(s: seq<Pair>)
    ensures Ordered(Sort(s))
  {
    if s != [] {
      SortOrdered(s[1..]);
      InsertOrdered(s[0], Sort(s[1..]));
    }
  }

  lemma {:induction false} InsertValues(p: Pair, s: seq<Pair>, key: string)
    ensures Values(Insert(p, s), key) == (if p.key == key then [p.value] else []) + Values(s, key)
  {
    if s != [] && Less(s[0].key, p.key) {
      InsertValues(p, s[1..], key);
      LessIrreflexive(p.key);
      ConsValues(s[0], Insert(p, s[1..]), key);
      assert s == [s[0]] + s[1..];
    } else {
      ConsValues(p, s, key);
    }
  }

  lemma {:induction false} ConsValues(p: Pair, s: seq<Pair>, key: string)
    ensures Values([p] + s, key) == (if p.key == key then [p.value] else []) + Values(s, key)
  {
    assert ([p] + s)[1..] == s;
  }

  /** The sort is stable: each key keeps its values in order. */
  lemma {:induction false} SortStable(s: seq<Pair>, key: string)
    ensures Values(Sort(s), key) == Values(s, key)
  {
    if s != [] {
      SortStable(s[1..], key);
      InsertValues(s[0], Sort(s[1..]), key);
    }
  }

  lemma {:induction false} ValuesIn(s: seq<Pair>, key: string)
    ensures Values(s, key) != [] <==> exists i :: 0 <= i < |s| && s[i].key == key
  {
    if s != [] {
      ValuesIn(s[1..], key);
      if i :| 0 <= i < |s| && s[i].key == key {
        if i > 0 { assert s[1..][i - 1].key == key; }
      }
      if i :| 0 <= i < |s[1..]| && s[1..][i].key == key {
        assert s[i + 1].key == key;
      }
    }
  }

  ghost predicate SameValues(a: seq<Pair>, b: seq<Pair>) { forall key :: Values(a, key) == Values(b, key) }

  lemma {:induction false} SmallestFirst(a: seq<Pair>, b: seq<Pair>)
    requires Ordered(a) && SameValues(a, b) && a != [] && b != []
    ensures !Less(b[0].key, a[0].key)
  {
    ValuesIn(b, b[0].key);
    ValuesIn(a, b[0].key);
    assert Values(a, b[0].key) == Values(b, b[0].key);
    var i :| 0 <= i < |a| && a[i].key == b[0].key;
    LessIrreflexive(a[0].key);
  }

  lemma {:induction false} EmptyToo(a: seq<Pair>, b: seq<Pair>)
    requires a == [] && SameValues(a, b)
    ensures b == []
  {
    if b != [] {
      ValuesIn(b, b[0].key);
      assert false;
    }
  }

  /** Ordered sequences with the same values per key are equal. */
  lemma {:induction false} OrderedUnique(a: seq<Pair>, b: seq<Pair>)
    requires Ordered(a) && Ordered(b) && SameValues(a, b)
    ensures a == b
  {
    if a == [] {
      EmptyToo(a, b);
    } else if b == [] {
      EmptyToo(b, a);
    } else {
      SmallestFirst(a, b);
      SmallestFirst(b, a);
      LessTotal(a[0].key, b[0].key);
      assert Values(a, a[0].key) == Values(b, a[0].key);
      assert a[0].value == Values(a, a[0].key)[0] == b[0].value;
      forall key ensures Values(a[1..], key) == Values(b[1..], key) {
        TailValues(a, key);
        TailValues(b, key);
        assert Values(a, key) == Values(b, key);
      }
      OrderedUnique(a[1..], b[1..]);
      assert a == [a[0]] + a[1..] && b == [b[0]] + b[1..];
    }
  }

  lemma {:induction false} TailValues(s: seq<Pair>, key: string)
    requires s != []
    ensures Values(s[1..], key) == if s[0].key == key then Values(s, key)[1..] else Values(s, key)
  {}

  /** Two pair lists sort to the same list exactly when every key has the same values in the same order. */
  lemma {:induction false} SameSortExactly(a: seq<Pair>, b: seq<Pair>)
    ensures Sort(a) == Sort(b) <==> SameValues(a, b)
  {
    forall key ensures Values(Sort(a), key) == Values(a, key) && Values(Sort(b), key) == Values(b, key) {
      SortStable(a, key);
      SortStable(b, key);
    }
    if Sort(a) == Sort(b) {
      forall key ensures Values(a, key) == Values(b, key) {
        assert Values(Sort(a), key) == Values(Sort(b), key);
      }
    }
    if SameValues(a, b) {
      SortOrdered(a);
      SortOrdered(b);
      forall key ensures Values(Sort(a), key) == Values(Sort(b), key) {
        assert Values(a, key) == Values(b, key);
      }
      OrderedUnique(Sort(a), Sort(b));
    }
  }

  // ---- whole query strings --------------------------------------------------------------

  predicate AllClean(s: seq<Pair>) { forall p <- s :: Clean(p) }

  lemma {:induction false} NonEmptyIn(parts: seq<string>)
    ensures forall p <- NonEmpty(parts) :: p in parts
  {
    if parts != [] { NonEmptyIn(parts[1..]); }
  }

  lemma {:induction false} ParseAllClean(parts: seq<string>)
    requires forall p <- parts :: Free(p, '&')
    ensures AllClean(ParseAll(parts))
  {
    if parts != [] {
      assert parts[0] in parts;
      ParseClean(parts[0]);
      ParseAllClean(parts[1..]);
    }
  }

  lemma {:induction false} PairsClean(qs: string)
    ensures AllClean(Pairs(qs))
  {
    SplitPieces(qs, '&');
    NonEmptyIn(Split(qs, '&'));
    ParseAllClean(NonEmpty(Split(qs, '&')));
  }

  lemma {:induction false} ShowAllParses(s: seq<Pair>)
    requires AllClean(s)
    ensures ParseAll(ShowAll(s)) == s && NonEmpty(ShowAll(s)) == ShowAll(s) && |ShowAll(s)| == |s|
    ensures forall x <- ShowAll(s) :: Free(x, '&')
  {
    if s != [] {
      assert s[0] in s;
      ParseShow(s[0]);
      ShowAllParses(s[1..]);
      assert ([Show(s[0])] + ShowAll(s[1..]))[1..] == ShowAll(s[1..]);
    }
  }

  /** Reading a written list of pairs gives the list back. */
  lemma {:induction false} PairsOfJoined(s: seq<Pair>)
    requires AllClean(s)
    ensures Pairs(Join(ShowAll(s), '&')) == s
  {
    ShowAllParses(s);
    if s == [] {
      assert NonEmpty([""]) == [] by { assert [""][1..] == []; }
    } else {
      SplitJoin(ShowAll(s), '&');
    }
  }

  /** The sorted query string holds the same pairs, in sorted order. */
  lemma {:induction false} SortedHoldsPairs(qs: string)
    ensures Pairs(SortQueryString(qs)) == Sort(Pairs(qs))
    ensures multiset(Pairs(SortQueryString(qs))) == multiset(Pairs(qs))
  {
    var s := Pairs(qs);
    PairsClean(qs);
    SortMultiset(s);
    forall p | p in Sort(s) ensures Clean(p) {
      assert p in multiset(Sort(s));
      assert p in s;
    }
    PairsOfJoined(Sort(s));
  }

  lemma {:induction false} SortTwice(s: seq<Pair>)
    ensures Sort(Sort(s)) == Sort(s)
  {
    forall key ensures Values(Sort(s), key) == Values(s, key) { SortStable(s, key); }
    SameSortExactly(Sort(s), s);
  }

  lemma {:induction false} Idempotent(qs: string)
    ensures SortQueryString(SortQueryString(qs)) == SortQueryString(qs)
  {
    SortedHoldsPairs(qs);
    SortTwice(Pairs(qs));
  }

  /** Two query strings are signed alike exactly when every key has the same values in the same order. */
  lemma {:induction false} SameQueryExactly(a: string, b: string)
    ensures SortQueryString(a) == SortQueryString(b) <==> SameValues(Pairs(a), Pairs(b))
  {
    SameSortExactly(Pairs(a), Pairs(b));
    SortedHoldsPairs(a);
    SortedHoldsPairs(b);
  }

  predicate DistinctKeys(s: seq<Pair>) { forall i, j :: 0 <= i < j < |s| ==> s[i].key != s[j].key }

  lemma {:induction false} DistinctValues(s: seq<Pair>, p: Pair)
    requires DistinctKeys(s) && p in s
    ensures Values(s, p.key) == [p.value]
  {
    if s[0] == p {
      ValuesIn(s[1..], p.key);
    } else {
      assert p in s[1..];
      DistinctValues(s[1..], p);
      var i :| 0 <= i < |s[1..]| && s[1..][i] == p;
      assert s[0].key != s[i + 1].key;
    }
  }

  lemma {:induction false} DistinctOnce(s: seq<Pair>, p: Pair)
    requires DistinctKeys(s)
    ensures multiset(s)[p] <= 1
  {
    if s != [] {
      assert s == [s[0]] + s[1..];
      DistinctOnce(s[1..], p);
      if s[0] == p {
        forall i | 0 <= i < |s[1..]| ensures s[1..][i] != p { assert s[i + 1].key != s[0].key; }
      }
    }
  }

  lemma {:induction false} TwiceCounted(s: seq<Pair>, i: nat, j: nat)
    requires i < j < |s| && s[i] == s[j]
    ensures multiset(s)[s[i]] >= 2
  {
    assert s == s[..i] + [s[i]] + s[i + 1..];
    assert s[i + 1..][j - i - 1] == s[i];
  }

  lemma {:induction false} DistinctKept(a: seq<Pair>, b: seq<Pair>)
    requires multiset(a) == multiset(b) && DistinctKeys(a)
    ensures DistinctKeys(b)
  {
    forall i, j | 0 <= i < j < |b| ensures b[i].key != b[j].key {
      assert b[i] in multiset(a) && b[j] in multiset(a);
      assert b[i] in a && b[j] in a;
      if b[i] == b[j] {
        TwiceCounted(b, i, j);
        DistinctOnce(a, b[i]);
      }
    }
  }

  /** Any rearrangement of pairs with distinct keys is signed alike. */
  lemma {:induction false} RearrangedAlike(a: string, b: string)
    requires multiset(Pairs(a)) == multiset(Pairs(b)) && DistinctKeys(Pairs(a))
    ensures SortQueryString(a) == SortQueryString(b)
  {
    DistinctKept(Pairs(a), Pairs(b));
    forall key ensures Values(Pairs(a), key) == Values(Pairs(b), key) {
      RearrangedValues(Pairs(a), Pairs(b), key);
    }
    SameQueryExactly(a, b);
  }

  lemma {:induction false} RearrangedValues(a: seq<Pair>, b: seq<Pair>, key: string)
    requires multiset(a) == multiset(b) && DistinctKeys(a) && DistinctKeys(b)
    ensures Values(a, key) == Values(b, key)
  {
    ValuesIn(a, key);
    ValuesIn(b, key);
    if i :| 0 <= i < |a| && a[i].key == key {
      assert a[i] in multiset(a) && a[i] in b;
      DistinctValues(a, a[i]);
      DistinctValues(b, a[i]);
    } else {
      forall i | 0 <= i < |b| ensures b[i].key != key {
        assert b[i] in multiset(b);
        assert b[i] in a;
      }
    }
  }

  // ---- six lines ------------------------------------------------------------------------

  datatype Request = Request(httpMethod: string, url: string, timestamp: string, keyId: string, bodySha: string)

  function UpperChar(c: char): char { if 'a' <= c <= 'z' then (c as int - 32) as char else c }

  function Upper(s: string): string { if s == "" then "" else [UpperChar(s[0])] + Upper(s[1..]) }

  function PathOf(url: string): string {
    if url == "" || url[0] == '?' then "" else [url[0]] + PathOf(url[1..])
  }

  function QueryOf(url: string): string {
    if url == "" then "" else if url[0] == '?' then url[1..] else QueryOf(url[1..])
  }

  function Fields(r: Request): seq<string> {
    [Upper(r.httpMethod), PathOf(r.url), SortQueryString(QueryOf(r.url)), r.timestamp, r.keyId, r.bodySha]
  }

  function CanonicalString(r: Request): string { Join(Fields(r), '\n') }

  predicate OneLine(r: Request) {
    && Free(r.httpMethod, '\n') && Free(r.url, '\n') && Free(r.timestamp, '\n')
    && Free(r.keyId, '\n') && Free(r.bodySha, '\n')
  }

  lemma {:induction false} UrlFree(url: string, c: char)
    requires Free(url, c)
    ensures Free(PathOf(url), c) && Free(QueryOf(url), c)
  {
    if url != "" && url[0] != '?' { UrlFree(url[1..], c); }
  }

  lemma {:induction false} UpperFree(s: string, c: char)
    requires Free(s, c) && !('A' <= c <= 'Z')
    ensures Free(Upper(s), c)
  {
    if s != "" { UpperFree(s[1..], c); }
  }

  lemma {:induction false} SplitKeepsFree(s: string, sep: char, c: char)
    requires Free(s, c)
    ensures forall p <- Split(s, sep) :: Free(p, c)
  {
    if s != "" {
      SplitKeepsFree(s[1..], sep, c);
      var rest := Split(s[1..], sep);
      assert rest[0] in rest;
    }
  }

  predicate PairFree(p: Pair, c: char) { Free(p.key, c) && Free(p.value, c) }

  lemma {:induction false} ParseFree(kv: string, c: char)
    requires Free(kv, c)
    ensures PairFree(ParsePair(kv), c)
  {
    if kv != "" && kv[0] != '=' { ParseFree(kv[1..], c); }
  }

  lemma {:induction false} ParseAllFree(parts: seq<string>, c: char)
    requires forall p <- parts :: Free(p, c)
    ensures forall p <- ParseAll(parts) :: PairFree(p, c)
  {
    if parts != [] {
      assert parts[0] in parts;
      ParseFree(parts[0], c);
      ParseAllFree(parts[1..], c);
    }
  }

  lemma {:induction false} JoinShownFree(s: seq<Pair>, c: char)
    requires (forall p <- s :: PairFree(p, c)) && c != '=' && c != '&'
    ensures Free(Join(ShowAll(s), '&'), c)
  {
    if s != [] {
      assert s[0] in s;
      JoinShownFree(s[1..], c);
      assert ([Show(s[0])] + ShowAll(s[1..]))[1..] == ShowAll(s[1..]);
    }
  }

  lemma {:induction false} SortedFree(qs: string, c: char)
    requires Free(qs, c) && c != '=' && c != '&'
    ensures Free(SortQueryString(qs), c)
  {
    SplitKeepsFree(qs, '&', c);
    NonEmptyIn(Split(qs, '&'));
    ParseAllFree(NonEmpty(Split(qs, '&')), c);
    SortMultiset(Pairs(qs));
    forall p | p in Sort(Pairs(qs)) ensures PairFree(p, c) {
      assert p in multiset(Sort(Pairs(qs)));
      assert p in Pairs(qs);
    }
    JoinShownFree(Sort(Pairs(qs)), c);
  }

  lemma {:induction false} FieldsOneLine(r: Request)
    requires OneLine(r)
    ensures forall f <- Fields(r) :: Free(f, '\n')
  {
    UpperFree(r.httpMethod, '\n');
    UrlFree(r.url, '\n');
    SortedFree(QueryOf(r.url), '\n');
  }

  /**
   The signed string binds the request: among requests without line breaks, two share it exactly when
   method (case aside), path, time, key and body digest agree and every query key has the same values in order.
   */
  lemma {:induction false} CanonicalExactly(a: Request, b: Request)
    requires OneLine(a) && OneLine(b)
    ensures CanonicalString(a) == CanonicalString(b)
      <==> && Upper(a.httpMethod) == Upper(b.httpMethod) && PathOf(a.url) == PathOf(b.url)
           && SameValues(Pairs(QueryOf(a.url)), Pairs(QueryOf(b.url)))
           && a.timestamp == b.timestamp && a.keyId == b.keyId && a.bodySha == b.bodySha
  {
    FieldsOneLine(a);
    FieldsOneLine(b);
    SplitJoin(Fields(a), '\n');
    SplitJoin(Fields(b), '\n');
    SameQueryExactly(QueryOf(a.url), QueryOf(b.url));
    assert Fields(a)[0] == Upper(a.httpMethod) && Fields(a)[1] == PathOf(a.url)
        && Fields(a)[2] == SortQueryString(QueryOf(a.url)) && Fields(a)[3] == a.timestamp;
  }
}
