/**
 * The airport list shared by the collector and query endpoints, as a sequence of entries,
 * with the lookup, filter and removal operations the collector performs on it.
 */
module Registry {
  import opened Common

  /**
   * One airport entry. The source never changes an entry after appending it, so an entry is
   * modelled as a value rather than an object.
   */
  datatype AirportData = AirportData(iata: string, latitude: real, longitude: real)

  /** The value a coordinate of a newly created AirportData holds until a setter assigns it. */
  const UnsetCoordinate: real := 0.0

  /** The set of codes occurring in the list, duplicates collapsed. */
  function Codes(s: seq<AirportData>): (r: set<string>)
    ensures forall i :: 0 <= i < |s| ==> s[i].iata in r
    ensures s == [] <==> r == {}
  {
    var codes := set a | a in s :: a.iata;
    assert s != [] ==> s[0] in s && s[0].iata in codes;
    codes
  }

  /** getAirportDataIdx: the first index whose entry has code `code`, or None when there is none. */
  function IndexOfCode(s: seq<AirportData>, code: string): (r: Option<nat>)
    ensures r.Some? ==> r.value < |s| && s[r.value].iata == code
    ensures r.Some? ==> forall j :: 0 <= j < r.value ==> s[j].iata != code
    ensures r.None? <==> code !in Codes(s)
  {
    if |s| == 0 then None
    else if s[0].iata == code then Some(0)
    else match IndexOfCode(s[1..], code)
      case None => None
      case Some(i) => Some(i + 1)
  }

  /** The stream filter of deleteAirportData: the entries with code `code`, in list order. */
  function Matching(s: seq<AirportData>, code: string): (r: seq<AirportData>)
    ensures forall a :: a in r <==> a in s && a.iata == code
  {
    if |s| == 0 then []
    else if s[0].iata == code then [s[0]] + Matching(s[1..], code)
    else Matching(s[1..], code)
  }

  /** List.removeAll: drops every entry equal to some element of `xs`, keeping the order of the rest. */
  function RemoveAll(s: seq<AirportData>, xs: seq<AirportData>): (r: seq<AirportData>)
    ensures forall a :: a in r <==> a in s && a !in xs
  {
    if |s| == 0 then []
    else if s[0] in xs then RemoveAll(s[1..], xs)
    else [s[0]] + RemoveAll(s[1..], xs)
  }

  /** What deleting `code` should leave: the entries with other codes, in their original order. */
  function Retain(s: seq<AirportData>, code: string): (r: seq<AirportData>)
    ensures forall a :: a in r <==> a in s && a.iata != code
  {
    if |s| == 0 then []
    else if s[0].iata == code then Retain(s[1..], code)
    else [s[0]] + Retain(s[1..], code)
  }

  /** Removing exactly the entries with code `code` is Retain. */
  lemma {:induction false} RemoveAllOfCode(s: seq<AirportData>, xs: seq<AirportData>, code: string)
    requires forall a :: a in s ==> (a in xs <==> a.iata == code)
    ensures RemoveAll(s, xs) == Retain(s, code)
  {
    if |s| > 0 {
      assert forall a :: a in s[1..] ==> a in s;
      RemoveAllOfCode(s[1..], xs, code);
    }
  }

  /** removeAll of the filtered entries leaves what Retain describes. */
  lemma RemoveMatchingIsRetain(s: seq<AirportData>, code: string)
    ensures RemoveAll(s, Matching(s, code)) == Retain(s, code)
  {
    RemoveAllOfCode(s, Matching(s, code), code);
  }

  /** Deleting a code that does not occur changes nothing. */
  lemma {:induction false} RetainAbsent(s: seq<AirportData>, code: string)
    requires code !in Codes(s)
    ensures Retain(s, code) == s
  {
    if |s| > 0 {
      assert s == [s[0]] + s[1..];
      assert s[0] in s;
      assert Codes(s[1..]) <= Codes(s) by {
        forall c | c in Codes(s[1..]) ensures c in Codes(s) {
          var a :| a in s[1..] && a.iata == c;
          assert a in s;
        }
      }
      RetainAbsent(s[1..], code);
    }
  }

  /** Retain keeps order: it distributes over concatenation. */
  lemma {:induction false} RetainAppend(a: seq<AirportData>, b: seq<AirportData>, code: string)
    ensures Retain(a + b, code) == Retain(a, code) + Retain(b, code)
  {
    if |a| == 0 {
      assert a + b == b;
    } else {
      assert (a + b)[0] == a[0];
      assert (a + b)[1..] == a[1..] + b;
      RetainAppend(a[1..], b, code);
    }
  }

  /** Deleting twice is deleting once. */
  lemma RetainIdempotent(s: seq<AirportData>, code: string)
    ensures Retain(Retain(s, code), code) == Retain(s, code)
  {
    RetainAbsent(Retain(s, code), code);
  }

  /** Deletion removes exactly the matching entries: the kept and the removed add up to the list. */
  lemma {:induction false} RetainLength(s: seq<AirportData>, code: string)
    ensures |Retain(s, code)| + |Matching(s, code)| == |s|
  {
    if |s| > 0 {
      RetainLength(s[1..], code);
    }
  }

  /** After deletion the code is gone and every other code is still present. */
  lemma RetainCodes(s: seq<AirportData>, code: string)
    ensures Codes(Retain(s, code)) == Codes(s) - {code}
  {
    forall c | c in Codes(s) - {code} ensures c in Codes(Retain(s, code)) {
      var a :| a in s && a.iata == c;
      assert a in Retain(s, code);
    }
  }

  /** Appending an entry adds its code to the set of codes and nothing else. */
  lemma CodesAppend(s: seq<AirportData>, a: AirportData)
    ensures Codes(s + [a]) == Codes(s) + {a.iata}
  {
    assert a in s + [a];
    forall c | c in Codes(s) ensures c in Codes(s + [a]) {
      var b :| b in s && b.iata == c;
      assert b in s + [a];
    }
  }

  /** Duplicates are collapsed: there are never more codes than entries. */
  lemma {:induction false} CodesBound(s: seq<AirportData>)
    ensures |Codes(s)| <= |s|
  {
    if |s| > 0 {
      var init := s[..|s| - 1];
      assert s == init + [s[|s| - 1]];
      CodesAppend(init, s[|s| - 1]);
      CodesBound(init);
    }
  }

  /**
   * What appending does to lookups: a new code resolves to the appended entry, a code
   * already present still resolves to its first entry, and other codes are unaffected.
   */
  lemma {:induction false} IndexAfterAppend(s: seq<AirportData>, a: AirportData, code: string)
    ensures IndexOfCode(s + [a], code) ==
      if code in Codes(s) then IndexOfCode(s, code)
      else if code == a.iata then Some(|s|)
      else None
  {
    if |s| > 0 {
      assert (s + [a])[0] == s[0];
      assert (s + [a])[1..] == s[1..] + [a];
      assert s[0] in s;
      if s[0].iata != code {
        assert code in Codes(s) <==> code in Codes(s[1..]) by {
          assert s == [s[0]] + s[1..];
        }
        IndexAfterAppend(s[1..], a, code);
      }
    }
  }

  /** After deleting a code, looking it up fails. */
  lemma LookupAfterRetain(s: seq<AirportData>, code: string)
    ensures IndexOfCode(Retain(s, code), code) == None
  {
    RetainCodes(s, code);
  }
}
