/** The fetch window of `Plot.get_sql_query`: one unit picked by marker
    precedence over all timescale tokens, the largest magnitude among the
    tokens of that unit, and the SQL text that asks for that window. */
module Query {
  import opened Wrappers
  import opened PyStr
  import opened PyNum

  /** A timescale unit, in the order `get_sql_query` tests for it. */
  datatype Unit = Month | Day | Hour | Minute

  /** The substring whose presence in a token selects the unit. */
  function Marker(u: Unit): string {
    match u
    case Month => "M"
    case Day => "D"
    case Hour => "H"
    case Minute => "min"
  }

  /** The SQL interval keyword of the unit, with its leading space. */
  function SqlUnit(u: Unit): string {
    match u
    case Month => " MONTH"
    case Day => " DAY"
    case Hour => " HOUR"
    case Minute => " MINUTE"
  }

  /** Some token contains `w`. */
  predicate AnyContains(times: seq<string>, w: string) {
    exists i :: 0 <= i < |times| && Contains(times[i], w)
  }

  /** The unit `get_sql_query` selects: the first of `M`, `D`, `H`, `min`
      found in the tab-joined tokens; None leaves `max_t` and `sql_d` unbound. */
  function ChooseUnit(times: seq<string>): Option<Unit> {
    var temp := Join(times, "\t");
    if Contains(temp, "M") then Some(Month)
    else if Contains(temp, "D") then Some(Day)
    else if Contains(temp, "H") then Some(Hour)
    else if Contains(temp, "min") then Some(Minute)
    else None
  }

  /** Searching the tab-joined string finds a marker exactly when some single
      token contains it. */
  lemma JoinedMarker(times: seq<string>, u: Unit)
    ensures Contains(Join(times, "\t"), Marker(u)) <==> AnyContains(times, Marker(u))
  {
    assert '\t' !in Marker(u);
    JoinContains(times, '\t', Marker(u));
  }

  /** The unit chosen is the highest-precedence unit whose marker occurs in
      some token, whatever the magnitudes; none is chosen exactly when no token
      holds any marker. */
  lemma ChooseUnitPrecedence(times: seq<string>)
    ensures ChooseUnit(times) == Some(Month) <==> AnyContains(times, "M")
    ensures ChooseUnit(times) == Some(Day) <==> !AnyContains(times, "M") && AnyContains(times, "D")
    ensures ChooseUnit(times) == Some(Hour) <==>
      !AnyContains(times, "M") && !AnyContains(times, "D") && AnyContains(times, "H")
    ensures ChooseUnit(times) == Some(Minute) <==>
      !AnyContains(times, "M") && !AnyContains(times, "D") && !AnyContains(times, "H") && AnyContains(times, "min")
    ensures ChooseUnit(times) == None <==>
      !AnyContains(times, "M") && !AnyContains(times, "D") && !AnyContains(times, "H") && !AnyContains(times, "min")
  {
    JoinedMarker(times, Month);
    JoinedMarker(times, Day);
    JoinedMarker(times, Hour);
    JoinedMarker(times, Minute);
  }

  /** The token contains the marker but the text before it is not an integer. */
  predicate Unparsable(t: string, w: string)
    requires |w| > 0
  {
    Contains(t, w) && ParseInt(Before(t, w)).None?
  }

  /** `int(t.split(w)[0])` for a token whose prefix does parse. */
  function PrefixValue(t: string, w: string): int
    requires |w| > 0 && Contains(t, w) && !Unparsable(t, w)
  {
    ParseInt(Before(t, w)).value
  }

  /** `int(t.split(w)[0])`, raising `ValueError` when the prefix is not an integer. */
  function Magnitude(t: string, w: string): Result<int>
    requires |w| > 0
  {
    match ParseInt(Before(t, w))
    case None => Failure(IntValueError(Before(t, w)))
    case Some(n) => Success(n)
  }

  /** A prefix that is the decimal text of `n` is read back as `n`. */
  lemma MagnitudeOfText(t: string, w: string, n: int)
    requires |w| > 0 && Before(t, w) == IntToString(n)
    ensures Magnitude(t, w) == Success(n)
  {
    ParseIntOfIntToString(n);
  }

  /** The value `max_n` reaches over a list of tokens, scanning them in order:
      the larger of 0 and the integer prefixes of the tokens containing `w`,
      or `ValueError` at the first token whose prefix does not parse. */
  function MaxMagnitude(times: seq<string>, w: string): Result<nat>
    requires |w| > 0
  {
    if |times| == 0 then Success(0)
    else
      var prev :- MaxMagnitude(times[..|times| - 1], w);
      var t := times[|times| - 1];
      if Contains(t, w) then
        var v :- Magnitude(t, w);
        Success(if v > prev then v else prev)
      else Success(prev)
  }

  /** The scan succeeds exactly when every token holding the marker has an integer prefix. */
  lemma {:induction false} MaxMagnitudeSucceeds(times: seq<string>, w: string)
    requires |w| > 0
    ensures MaxMagnitude(times, w).Success? <==> forall i :: 0 <= i < |times| ==> !Unparsable(times[i], w)
  {
    if |times| > 0 {
      var init := times[..|times| - 1];
      MaxMagnitudeSucceeds(init, w);
      assert forall i :: 0 <= i < |init| ==> init[i] == times[i];
      assert MaxMagnitude(times, w).Success? <==>
        MaxMagnitude(init, w).Success? && !Unparsable(times[|times| - 1], w);
    }
  }

  /** One step of the scan: the result extends the result over all but the last token. */
  lemma MaxMagnitudeStep(times: seq<string>, w: string)
    requires |w| > 0 && |times| > 0 && MaxMagnitude(times, w).Success?
    ensures var init := times[..|times| - 1];
      var t := times[|times| - 1];
      var n := MaxMagnitude(times, w).value;
      && MaxMagnitude(init, w).Success?
      && !Unparsable(t, w)
      && (!Contains(t, w) ==> n == MaxMagnitude(init, w).value)
      && (Contains(t, w) ==> n == if PrefixValue(t, w) > MaxMagnitude(init, w).value then PrefixValue(t, w)
                                  else MaxMagnitude(init, w).value)
  {
  }

  /** On success the result bounds every prefix of a token of the unit. */
  lemma {:induction false} MaxMagnitudeIsUpperBound(times: seq<string>, w: string)
    requires |w| > 0 && MaxMagnitude(times, w).Success?
    ensures forall i :: 0 <= i < |times| ==> !Unparsable(times[i], w)
    ensures forall i :: 0 <= i < |times| && Contains(times[i], w) ==>
      PrefixValue(times[i], w) <= MaxMagnitude(times, w).value
  {
    MaxMagnitudeSucceeds(times, w);
    if |times| > 0 {
      var init := times[..|times| - 1];
      MaxMagnitudeStep(times, w);
      MaxMagnitudeIsUpperBound(init, w);
      forall i | 0 <= i < |times| - 1 && Contains(times[i], w)
        ensures PrefixValue(times[i], w) <= MaxMagnitude(times, w).value
      {
        assert times[i] == init[i];
      }
    }
  }

  /** On success the result is 0 or the prefix of one of the tokens of the unit. */
  lemma {:induction false} MaxMagnitudeIsAttained(times: seq<string>, w: string)
    requires |w| > 0 && MaxMagnitude(times, w).Success?
    ensures forall i :: 0 <= i < |times| ==> !Unparsable(times[i], w)
    ensures var n := MaxMagnitude(times, w).value;
      n == 0 || (exists i :: 0 <= i < |times| && Contains(times[i], w) && PrefixValue(times[i], w) == n)
  {
    MaxMagnitudeSucceeds(times, w);
    if |times| > 0 {
      var init := times[..|times| - 1];
      MaxMagnitudeStep(times, w);
      MaxMagnitudeIsAttained(init, w);
      var prev := MaxMagnitude(init, w).value;
      var n := MaxMagnitude(times, w).value;
      if n != 0 && n != prev {
        assert PrefixValue(times[|times| - 1], w) == n;
      } else if n != 0 {
        var i :| 0 <= i < |init| && Contains(init[i], w) && PrefixValue(init[i], w) == n;
        assert times[i] == init[i];
      }
    }
  }

  /** On failure the error carries the prefix of the first token whose prefix does not parse. */
  lemma {:induction false} MaxMagnitudeFirstError(times: seq<string>, w: string) returns (j: nat)
    requires |w| > 0 && MaxMagnitude(times, w).Failure?
    ensures j < |times| && Unparsable(times[j], w)
    ensures MaxMagnitude(times, w).error == IntValueError(Before(times[j], w))
    ensures forall i :: 0 <= i < j ==> !Unparsable(times[i], w)
  {
    var init := times[..|times| - 1];
    assert forall i :: 0 <= i < |init| ==> init[i] == times[i];
    if MaxMagnitude(init, w).Failure? {
      j := MaxMagnitudeFirstError(init, w);
      assert MaxMagnitude(times, w).error == MaxMagnitude(init, w).error;
    } else {
      MaxMagnitudeSucceeds(init, w);
      j := |times| - 1;
    }
  }

  /** Once the scan has raised on a prefix, the rest of the tokens are never looked at. */
  lemma {:induction false} MaxMagnitudeFailureSticks(times: seq<string>, k: nat, w: string)
    requires |w| > 0 && k <= |times| && MaxMagnitude(times[..k], w).Failure?
    ensures MaxMagnitude(times, w) == MaxMagnitude(times[..k], w)
    decreases |times|
  {
    if k == |times| {
      assert times[..k] == times;
    } else {
      var init := times[..|times| - 1];
      assert init[..k] == times[..k];
      MaxMagnitudeFailureSticks(init, k, w);
    }
  }

  const QueryHead := "SELECT datetime, humidity, temp FROM environment WHERE datetime BETWEEN DATE_SUB(NOW(), INTERVAL "
  const QueryTail := ") AND NOW();"

  /** The query asking for the rows of the last `n` units. */
  function QueryText(n: nat, u: Unit): string {
    QueryHead + IntervalText(n, u) + QueryTail
  }

  /** `<n> <UNIT>`, the interval inside the query. */
  function IntervalText(n: nat, u: Unit): string {
    NatToString(n) + SqlUnit(u)
  }

  /** What `get_sql_query` returns or raises for the given tokens. */
  function SqlQuery(times: seq<string>): Result<string> {
    match ChooseUnit(times)
    case None => Failure(UnboundLocalError(if |times| == 0 then "sql_d" else "max_t"))
    case Some(u) =>
      var n :- MaxMagnitude(times, Marker(u));
      Success(QueryText(n, u))
  }

  /** Reads the interval back out of a query: the inverse of `QueryText`. */
  function ParseQuery(q: string): Option<(nat, Unit)> {
    match Unframe(q, QueryHead, QueryTail)
    case None => None
    case Some(mid) => ParseInterval(mid)
  }

  /** What lies between `head` and `tail` when `q` starts with the one and ends with the other. */
  function Unframe(q: string, head: string, tail: string): Option<string> {
    if StartsWith(q, head) && EndsWith(q[|head|..], tail) then Some(q[|head|..|q| - |tail|])
    else None
  }

  /** The interval keyword a query's middle part ends in, checked month first. */
  function IntervalUnit(mid: string): (r: Option<Unit>)
    ensures r.Some? ==> EndsWith(mid, SqlUnit(r.value))
  {
    if EndsWith(mid, " MONTH") then Some(Month)
    else if EndsWith(mid, " DAY") then Some(Day)
    else if EndsWith(mid, " HOUR") then Some(Hour)
    else if EndsWith(mid, " MINUTE") then Some(Minute)
    else None
  }

  /** Reads `<digits> <UNIT>`, the middle of a query. */
  function ParseInterval(mid: string): Option<(nat, Unit)> {
    match IntervalUnit(mid)
    case None => None
    case Some(u) =>
      var digits := mid[..|mid| - |SqlUnit(u)|];
      if |digits| > 0 && forall i :: 0 <= i < |digits| ==> IsDigit(digits[i]) then Some((DigitsValue(digits), u))
      else None
  }

  lemma EndsWithLast(s: string, p: string)
    requires EndsWith(s, p) && |p| > 0
    ensures s[|s| - 1] == p[|p| - 1]
  {
    assert s[|s| - 1] == s[|s| - |p|..][|p| - 1];
  }

  /** The interval keyword at the end of `digits + SqlUnit(u)` is recognised as `u`. */
  lemma UnitSuffix(digits: string, u: Unit)
    ensures EndsWith(digits + SqlUnit(u), SqlUnit(u))
    ensures forall v :: EndsWith(digits + SqlUnit(u), SqlUnit(v)) ==> v == u
  {
    var mid := digits + SqlUnit(u);
    assert mid[|mid| - |SqlUnit(u)|..] == SqlUnit(u);
    assert mid[|mid| - 1] == SqlUnit(u)[|SqlUnit(u)| - 1];
    forall v | EndsWith(mid, SqlUnit(v))
      ensures v == u
    {
      EndsWithLast(mid, SqlUnit(v));
      LastCharTellsUnit(u, v);
    }
  }

  /** The interval keywords end in four different letters. */
  lemma LastCharTellsUnit(u: Unit, v: Unit)
    requires SqlUnit(u)[|SqlUnit(u)| - 1] == SqlUnit(v)[|SqlUnit(v)| - 1]
    ensures u == v
  {
  }

  /** A string framed by a head and a tail gives back the middle. */
  lemma Framed(head: string, mid: string, tail: string)
    ensures Unframe(head + mid + tail, head, tail) == Some(mid)
  {
    var q := head + mid + tail;
    assert q[..|head|] == head;
    assert q[|head|..] == mid + tail;
    assert (mid + tail)[|mid|..] == tail;
    assert q[|head|..|q| - |tail|] == mid;
  }

  /** The query text names exactly the magnitude and the unit it was built from. */
  lemma ParseQueryText(n: nat, u: Unit)
    ensures ParseQuery(QueryText(n, u)) == Some((n, u))
  {
    Framed(QueryHead, IntervalText(n, u), QueryTail);
    ParseIntervalText(n, u);
  }

  /** The keyword `digits + SqlUnit(u)` ends in is read back as `u`. */
  lemma IntervalUnitOf(digits: string, u: Unit)
    ensures IntervalUnit(digits + SqlUnit(u)) == Some(u)
  {
    UnitSuffix(digits, u);
    var mid := digits + SqlUnit(u);
    match u
    case Month =>
    case Day => assert !EndsWith(mid, SqlUnit(Month));
    case Hour => assert !EndsWith(mid, SqlUnit(Month)) && !EndsWith(mid, SqlUnit(Day));
    case Minute =>
      assert !EndsWith(mid, SqlUnit(Month)) && !EndsWith(mid, SqlUnit(Day)) && !EndsWith(mid, SqlUnit(Hour));
  }

  lemma ParseIntervalText(n: nat, u: Unit)
    ensures ParseInterval(IntervalText(n, u)) == Some((n, u))
  {
    var digits := NatToString(n);
    var mid := digits + SqlUnit(u);
    IntervalUnitOf(digits, u);
    assert mid[..|mid| - |SqlUnit(u)|] == digits;
    DigitsValueOfNatToString(n);
  }

  /** A successful query asks for the chosen unit over the magnitude the scan
      found (whose meaning `MaxMagnitudeIsUpperBound` and `MaxMagnitudeIsAttained` state). */
  lemma SqlQueryWindow(times: seq<string>)
    requires SqlQuery(times).Success?
    ensures ChooseUnit(times).Some?
    ensures var u := ChooseUnit(times).value;
      && MaxMagnitude(times, Marker(u)).Success?
      && ParseQuery(SqlQuery(times).value) == Some((MaxMagnitude(times, Marker(u)).value, u))
  {
    var u := ChooseUnit(times).value;
    ParseQueryText(MaxMagnitude(times, Marker(u)).value, u);
  }

  /** With no marker in any token the query cannot be built. */
  lemma SqlQueryNoUnit(times: seq<string>)
    requires forall u :: !AnyContains(times, Marker(u))
    ensures SqlQuery(times).Failure? && SqlQuery(times).error.UnboundLocalError?
  {
    ChooseUnitPrecedence(times);
  }

  lemma NinetyMinutesOneHourUnit()
    ensures ChooseUnit(["90min", "1H"]) == Some(Hour)
  {
    var times := ["90min", "1H"];
    ContainsChar("90min", 'M');
    ContainsChar("1H", 'M');
    ContainsChar("90min", 'D');
    ContainsChar("1H", 'D');
    ContainsChar("1H", 'H');
    assert times[1] == "1H";
    assert !AnyContains(times, "M");
    assert !AnyContains(times, "D");
    assert AnyContains(times, "H");
    ChooseUnitPrecedence(times);
  }

  lemma OneHourPrefix()
    ensures Contains("1H", "H") && Magnitude("1H", "H") == Success(1)
  {
    assert IsAt("1H", "H", 1);
    FindAt("1H", "H", 1);
    assert Before("1H", "H") == "1" == IntToString(1);
    MagnitudeOfText("1H", "H", 1);
  }

  /** A token without the marker leaves the scan's value unchanged. */
  lemma ScanSkips(init: seq<string>, t: string, w: string)
    requires |w| > 0 && !Contains(t, w)
    ensures MaxMagnitude(init + [t], w) == MaxMagnitude(init, w)
  {
    assert (init + [t])[..|init|] == init;
  }

  /** A token with the marker raises the scan's value to its prefix, if larger. */
  lemma ScanTakes(init: seq<string>, t: string, w: string, v: int)
    requires |w| > 0 && Contains(t, w) && Magnitude(t, w) == Success(v) && MaxMagnitude(init, w).Success?
    ensures MaxMagnitude(init + [t], w) == Success(if v > MaxMagnitude(init, w).value then v else MaxMagnitude(init, w).value)
  {
    assert (init + [t])[..|init|] == init;
  }

  /** A token with the marker but no integer prefix makes the scan raise its `ValueError`. */
  lemma ScanRaises(init: seq<string>, t: string, w: string)
    requires |w| > 0 && Contains(t, w) && Magnitude(t, w).Failure? && MaxMagnitude(init, w).Success?
    ensures MaxMagnitude(init + [t], w) == Failure(Magnitude(t, w).error)
  {
    assert (init + [t])[..|init|] == init;
  }

  /** A single token without the marker leaves the scan at zero. */
  lemma ScanSingleSkip(a: string, w: string)
    requires |w| > 0 && !Contains(a, w)
    ensures MaxMagnitude([a], w) == Success(0)
  {
    assert [a][..0] == [];
  }

  /** A token without the marker, then one with it: the scan ends at the second one's prefix. */
  lemma ScanPair(a: string, b: string, w: string, v: nat)
    requires |w| > 0 && !Contains(a, w) && Contains(b, w) && Magnitude(b, w) == Success(v)
    ensures MaxMagnitude([a, b], w) == Success(v)
  {
    ScanSingleSkip(a, w);
    ScanTakes([a], b, w, v);
    assert [a] + [b] == [a, b];
  }

  /** Scanning for `H`: the minute token is skipped, the hour token gives 1. */
  lemma NinetyMinutesOneHourScan()
    ensures MaxMagnitude(["90min", "1H"], "H") == Success(1)
  {
    NinetyMinutesHaveNoHour();
    OneHourPrefix();
    ScanPair("90min", "1H", "H", 1);
  }

  lemma NinetyMinutesHaveNoHour()
    ensures !Contains("90min", "H")
  {
    ContainsChar("90min", 'H');
  }

  /** `"90min, 1H"` asks for 1 HOUR: the unit with the higher precedence wins
      over the longer duration. */
  lemma HourBeatsNinetyMinutes()
    ensures SqlQuery(["90min", "1H"]) == Success(QueryText(1, Hour))
  {
    NinetyMinutesOneHourUnit();
    NinetyMinutesOneHourScan();
  }
}
