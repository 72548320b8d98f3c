/** The `--filter key=value ...` option of the later runner: each argument is split on `=`
    and a raw test case is run only when every pair names a present key whose value is that
    string. Test cases are filtered lazily, in file order. */
module Filter {
  import opened Text

  /** A JSON value of a raw test case, as loaded (before the enum conversion). */
  datatype Json =
    | JNull
    | JBool(b: bool)
    | JNumber(n: int)
    | JString(s: string)
    | JArray(items: seq<Json>)
    | JObject(fields: seq<(string, Json)>)

  /** A raw test case: its top-level keys. */
  type RawCase = map<string, Json>

  /** `[s.split("=") for s in args.filter]`, or no filters when the option is absent. */
  function ParseFilters(given: seq<string>): (filters: seq<seq<string>>)
    ensures |filters| == |given|
    ensures forall k :: 0 <= k < |given| ==> Join("=", filters[k]) == given[k]
  {
    if |given| == 0 then []
    else
      JoinSplitOn(given[0], '=');
      [SplitOn(given[0], '=')] + ParseFilters(given[1..])
  }

  /** `key=value` with no `=` in either part gives the pair back. */
  lemma {:induction false} SplitKeyValue(key: string, value: string)
    requires forall i :: 0 <= i < |key| ==> key[i] != '='
    requires forall i :: 0 <= i < |value| ==> value[i] != '='
    ensures SplitOn(key + "=" + value, '=') == [key, value]
  {
    var s := key + "=" + value;
    assert IndexOf(s, '=') == |key| by {
      assert s[|key|] == '=';
    }
    assert s[..|key|] == key;
    assert s[|key| + 1..] == value;
    assert IndexOf(value, '=') == |value|;
  }

  /** An argument without `=` is a single piece: it cannot be unpacked into a pair. */
  lemma NoEqualsOnePiece(s: string)
    requires forall i :: 0 <= i < |s| ==> s[i] != '='
    ensures SplitOn(s, '=') == [s]
  {
    assert IndexOf(s, '=') == |s|;
  }

  /** What the predicate does with one test case: keep it, drop it, or raise `ValueError` on
      a filter that does not unpack into exactly a key and a value. */
  datatype Decision = Accept | Reject | Malformed

  /** The predicate `f`: the filters are looked at in order and the first mismatch decides;
      a malformed filter raises only once it is reached. */
  function Decide(filters: seq<seq<string>>, t: RawCase): Decision {
    if |filters| == 0 then Accept
    else if |filters[0]| != 2 then Malformed
    else if filters[0][0] !in t || t[filters[0][0]] != JString(filters[0][1]) then Reject
    else Decide(filters[1..], t)
  }

  /** The loop of `f`, with its early returns. */
  method Matches(filters: seq<seq<string>>, t: RawCase) returns (d: Decision)
    ensures d == Decide(filters, t)
  {
    for i := 0 to |filters|
      invariant Decide(filters, t) == Decide(filters[i..], t)
    {
      assert filters[i..][1..] == filters[i + 1..];
      if |filters[i]| != 2 {
        return Malformed;
      }
      var key, value := filters[i][0], filters[i][1];
      if key !in t || t[key] != JString(value) {
        return Reject;
      }
    }
    d := Accept;
  }

  /** Every filter is a `key=value` pair. */
  predicate WellFormed(filters: seq<seq<string>>) {
    forall k :: 0 <= k < |filters| ==> |filters[k]| == 2
  }

  /** With well-formed filters a test case is kept iff each key is present with exactly the
      given string as its value, and dropped otherwise; nothing raises. No filters keep every
      test case. */
  lemma {:induction false} DecideMeaning(filters: seq<seq<string>>, t: RawCase)
    requires WellFormed(filters)
    ensures Decide(filters, t) != Malformed
    ensures Decide(filters, t) == Accept <==>
      forall k :: 0 <= k < |filters| ==> filters[k][0] in t && t[filters[k][0]] == JString(filters[k][1])
  {
    if |filters| > 0 {
      DecideMeaning(filters[1..], t);
      assert forall k :: 1 <= k < |filters| ==> filters[k] == filters[1..][k - 1];
    }
  }

  /** The value must be the JSON string itself: a number, a boolean or `null` never equals the
      text of the filter. */
  lemma OnlyStringsMatch(key: string, value: string, t: RawCase)
    requires key in t && !t[key].JString?
    ensures Decide([[key, value]], t) == Reject
  {
  }

  /** A malformed filter behind a mismatching one is never unpacked; once reached it raises.
      With the first malformed filter at `i`, the case is never kept, and the predicate raises
      iff every filter before `i` matches. */
  lemma {:induction false} MalformedOnlyWhenReached(filters: seq<seq<string>>, t: RawCase, i: nat)
    requires i < |filters| && |filters[i]| != 2
    requires forall j :: 0 <= j < i ==> |filters[j]| == 2
    ensures Decide(filters, t) != Accept
    ensures Decide(filters, t) == Malformed <==>
      forall j :: 0 <= j < i ==> filters[j][0] in t && t[filters[j][0]] == JString(filters[j][1])
  {
    if i > 0 {
      MalformedOnlyWhenReached(filters[1..], t, i - 1);
      assert forall j :: 1 <= j < |filters| ==> filters[j] == filters[1..][j - 1];
    }
  }

  /** The test cases the batch loop runs, and whether the predicate raised on the next one. */
  datatype Selection = Selection(selected: seq<RawCase>, raised: bool)

  /** `filter(f, test_cases)` as the batch loop consumes it: kept cases in file order, up to
      the first case on which the predicate raises. */
  function Select(filters: seq<seq<string>>, cases: seq<RawCase>): Selection {
    if |cases| == 0 then Selection([], false)
    else match Decide(filters, cases[0])
      case Malformed => Selection([], true)
      case Reject => Select(filters, cases[1..])
      case Accept =>
        var rest := Select(filters, cases[1..]);
        Selection([cases[0]] + rest.selected, rest.raised)
  }

  /** Every selected case comes from the input and is accepted; a run that does not raise met
      no malformed filter. */
  lemma {:induction false} SelectSound(filters: seq<seq<string>>, cases: seq<RawCase>)
    ensures forall c :: c in Select(filters, cases).selected ==> c in cases && Decide(filters, c) == Accept
    ensures !Select(filters, cases).raised ==>
      forall k :: 0 <= k < |cases| ==> Decide(filters, cases[k]) != Malformed
  {
    if |cases| > 0 {
      SelectSound(filters, cases[1..]);
      assert forall k :: 1 <= k < |cases| ==> cases[k] == cases[1..][k - 1];
      assert forall c :: c in cases[1..] ==> c in cases;
    }
  }

  /** Selection runs through the file in order: the cases kept from `a + b` are those kept
      from `a` followed, unless the predicate raised within `a`, by those kept from `b`. */
  lemma {:induction false} SelectAppend(filters: seq<seq<string>>, a: seq<RawCase>, b: seq<RawCase>)
    ensures Select(filters, a + b) ==
      if Select(filters, a).raised then Select(filters, a)
      else Selection(Select(filters, a).selected + Select(filters, b).selected, Select(filters, b).raised)
  {
    if |a| == 0 {
      assert a + b == b;
    } else {
      assert (a + b)[0] == a[0];
      assert (a + b)[1..] == a[1..] + b;
      SelectAppend(filters, a[1..], b);
      var tail, sb := Select(filters, a[1..]), Select(filters, b);
      match Decide(filters, a[0])
      case Malformed =>
      case Reject =>
      case Accept =>
        assert Select(filters, a + b) == Selection([a[0]] + Select(filters, a[1..] + b).selected, Select(filters, a[1..] + b).raised);
        if !tail.raised {
          assert [a[0]] + (tail.selected + sb.selected) == [a[0]] + tail.selected + sb.selected;
        }
    }
  }

  /** One test case on its own is kept iff the predicate accepts it. */
  lemma SelectOne(filters: seq<seq<string>>, c: RawCase)
    ensures Select(filters, [c]) == match Decide(filters, c)
      case Accept => Selection([c], false)
      case Reject => Selection([], false)
      case Malformed => Selection([], true)
  {
    assert [c][1..] == [];
  }

  /** With well-formed filters nothing raises and every accepted case is kept. */
  lemma {:induction false} SelectComplete(filters: seq<seq<string>>, cases: seq<RawCase>)
    requires WellFormed(filters)
    ensures !Select(filters, cases).raised
    ensures forall k :: 0 <= k < |cases| && Decide(filters, cases[k]) == Accept ==> cases[k] in Select(filters, cases).selected
  {
    if |cases| > 0 {
      DecideMeaning(filters, cases[0]);
      SelectComplete(filters, cases[1..]);
      assert forall k :: 1 <= k < |cases| ==> cases[k] == cases[1..][k - 1];
    }
  }

  /** Without filters every test case is run, in file order. */
  lemma {:induction false} NoFiltersSelectAll(cases: seq<RawCase>)
    ensures Select([], cases) == Selection(cases, false)
  {
    if |cases| > 0 {
      NoFiltersSelectAll(cases[1..]);
    }
  }
}
