/** What the signed string looks like, piece by piece, for whoever has to build it independently. */
module CanonicalFormat {
  import opened Canonical

  // ---- the pieces of a request ----------------------------------------------------------

  /** Upper-casing changes the letters a to z, each in its place, and nothing else. */
  lemma {:induction false} UpperMeans(s: string, i: nat)
    requires i < |s|
    ensures |Upper(s)| == |s|
    ensures Upper(s)[i] == if 'a' <= s[i] <= 'z' then 'A' + (s[i] - 'a') else s[i]
  {
    if i > 0 { UpperMeans(s[1..], i - 1); } else { UpperSize(s); }
  }

  lemma {:induction false} UpperSize(s: string)
    ensures |Upper(s)| == |s|
  {
    if s != "" { UpperSize(s[1..]); }
  }

  /** The path is what comes before the first question mark, the query what comes after it. */
  lemma {:induction false} UrlCut(path: string, query: string)
    requires Free(path, '?')
    ensures PathOf(path) == path && QueryOf(path) == ""
    ensures PathOf(path + "?" + query) == path && QueryOf(path + "?" + query) == query
  {
    var url := path + "?" + query;
    if path == "" {
      assert url[1..] == query;
    } else {
      UrlCut(path[1..], query);
      assert url[1..] == path[1..] + "?" + query;
      assert path == [path[0]] + path[1..];
    }
  }

  /** A segment is cut at its first equals sign; one without it is all key. */
  lemma {:induction false} SegmentCut(key: string, value: string)
    requires Free(key, '=')
    ensures ParsePair(key) == Pair(key, "") && ParsePair(key + "=" + value) == Pair(key, value)
  {
    var kv := key + "=" + value;
    if key == "" {
      assert kv[1..] == value;
    } else {
      SegmentCut(key[1..], value);
      assert kv[1..] == key[1..] + "=" + value;
      assert key == [key[0]] + key[1..];
    }
  }

  /** One more segment is one more pair at the end, unless it is empty. */
  lemma {:induction false} PairsNext(segments: seq<string>, segment: string)
    requires (forall s <- segments :: Free(s, '&')) && Free(segment, '&')
    ensures segments != [] ==>
              Pairs(Join(segments + [segment], '&'))
              == Pairs(Join(segments, '&')) + (if segment == "" then [] else [ParsePair(segment)])
    ensures Pairs(segment) == if segment == "" then [] else [ParsePair(segment)]
  {
    if segments != [] {
      SplitJoin(segments, '&');
      SplitJoin(segments + [segment], '&');
      ParsedSnoc(segments, segment);
    }
    SplitFree(segment, '&');
    ParsedCons(segment, []);
    assert [segment] + [] == [segment];
  }

  lemma {:induction false} ParsedSnoc(segments: seq<string>, segment: string)
    ensures ParseAll(NonEmpty(segments + [segment]))
         == ParseAll(NonEmpty(segments)) + (if segment == "" then [] else [ParsePair(segment)])
  {
    if segments == [] {
      assert [] + [segment] == [segment] && [segment][1..] == [];
    } else {
      var rest := segments[1..];
      assert (segments + [segment])[1..] == rest + [segment];
      ParsedSnoc(rest, segment);
      ParsedCons(segments[0], rest);
      ParsedCons(segments[0], rest + [segment]);
      assert segments == [segments[0]] + rest && segments + [segment] == [segments[0]] + (rest + [segment]);
    }
  }

  lemma {:induction false} ParsedCons(segment: string, rest: seq<string>)
    ensures ParseAll(NonEmpty([segment] + rest))
         == (if segment == "" then [] else [ParsePair(segment)]) + ParseAll(NonEmpty(rest))
  {
    assert ([segment] + rest)[1..] == rest;
    if segment == "" {
      assert [] + NonEmpty(rest) == NonEmpty(rest);
      assert [] + ParseAll(NonEmpty(rest)) == ParseAll(NonEmpty(rest));
    } else {
      assert ([segment] + NonEmpty(rest))[1..] == NonEmpty(rest);
    }
  }

  // ---- the order ------------------------------------------------------------------------

  /** Up to `k` the strings agree; there `a` ends first, or has the smaller code unit. */
  predicate SmallerAt(a: string, b: string, k: nat) {
    && k <= |a| && k <= |b| && a[..k] == b[..k]
    && k < |b| && (k == |a| || a[k] < b[k])
  }

  /** Keys are ordered as in a dictionary of code units. */
  lemma {:induction false} LessIsDictionary(a: string, b: string)
    ensures Less(a, b) <==> exists k: nat :: SmallerAt(a, b, k)
  {
    if Less(a, b) {
      var k := FirstDifference(a, b);
    }
    if k: nat :| SmallerAt(a, b, k) { DifferenceDecides(a, b, k); }
  }

  lemma {:induction false} FirstDifference(a: string, b: string) returns (k: nat)
    requires Less(a, b)
    ensures SmallerAt(a, b, k)
  {
    if a == "" || a[0] < b[0] {
      k := 0;
    } else {
      var rest := FirstDifference(a[1..], b[1..]);
      k := rest + 1;
      assert a[..k] == [a[0]] + a[1..][..rest] && b[..k] == [b[0]] + b[1..][..rest];
    }
  }

  lemma {:induction false} DifferenceDecides(a: string, b: string, k: nat)
    requires SmallerAt(a, b, k)
    ensures Less(a, b)
  {
    if k > 0 {
      assert a[..k][0] == b[..k][0] && a[1..][..k - 1] == a[..k][1..] && b[1..][..k - 1] == b[..k][1..];
      DifferenceDecides(a[1..], b[1..], k - 1);
    }
  }

  // ---- the whole ------------------------------------------------------------------------

  lemma {:induction false} ShowAllAt(s: seq<Pair>, i: nat)
    requires i < |s|
    ensures |ShowAll(s)| == |s| && ShowAll(s)[i] == s[i].key + "=" + s[i].value
  {
    if i > 0 { ShowAllAt(s[1..], i - 1); } else { ShowAllSize(s); }
  }

  lemma {:induction false} ShowAllSize(s: seq<Pair>)
    ensures |ShowAll(s)| == |s|
  {
    if s != [] { ShowAllSize(s[1..]); }
  }

  /** The sorted query consists of `key=value` for each pair, in key order, with ampersands between. */
  lemma {:induction false} SortedSegments(qs: string)
    ensures var s, parts := Sort(Pairs(qs)), Split(SortQueryString(qs), '&');
            if s == [] then SortQueryString(qs) == ""
            else |parts| == |s| && forall i :: 0 <= i < |s| ==> parts[i] == s[i].key + "=" + s[i].value
  {
    var s := Sort(Pairs(qs));
    if s != [] {
      PairsClean(qs);
      SortMultiset(Pairs(qs));
      forall p | p in s ensures Clean(p) {
        assert p in multiset(s);
        assert p in Pairs(qs);
      }
      ShowAllParses(s);
      SplitJoin(ShowAll(s), '&');
      forall i | 0 <= i < |s| ensures ShowAll(s)[i] == s[i].key + "=" + s[i].value { ShowAllAt(s, i); }
    }
  }

  /** The lines of the signed string: method, path, sorted query, time, key, digest. */
  lemma {:induction false} CanonicalLines(r: Request)
    requires OneLine(r)
    ensures var lines := Split(CanonicalString(r), '\n');
            && |lines| == 6
            && lines[0] == Upper(r.httpMethod) && lines[1] == PathOf(r.url)
            && lines[2] == SortQueryString(QueryOf(r.url))
            && lines[3] == r.timestamp && lines[4] == r.keyId && lines[5] == r.bodySha
  {
    FieldsOneLine(r);
    SplitJoin(Fields(r), '\n');
  }
}
