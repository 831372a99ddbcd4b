/**
 * The `portRangeFlag` type of main.go: the list of `[start, stop]` pairs that
 * repeated `--ports start-stop` flags build up, its `Set` parser and its
 * `String` rendering.
 */
module PortFlags {
  import opened Results
  import opened GoInt
  import opened GoStrings
  import opened GoStrconv
  import opened Scanner

  type PortRangeFlag = seq<Range>

  /** Every rejection of `Set` is a `panic` in the source; the constructor names which one. */
  datatype SetError =
    | WrongPartCount(value: string)           // "Error during insert of the input: " + value
    | NotANumber(text: string)                // the error `strconv.Atoi` returned for `text`
    | StopBeforeStart(start: int, stop: int)  // "Stop port is greater than start port"

  const Dash: char := '-'

  /** `Set`: trim, split on every dash, require two integer parts with start <= stop, append. */
  function Set(flags: PortRangeFlag, value: string): (r: Result<PortRangeFlag, SetError>)
    ensures r.Ok? ==> |r.value| == |flags| + 1 && r.value[..|flags|] == flags
    ensures r.Ok? ==> r.value[|flags|].start <= r.value[|flags|].stop
    ensures r.Ok? ==> IsInt64(r.value[|flags|].start) && IsInt64(r.value[|flags|].stop)
    ensures CountChar(TrimSpace(value), Dash) != 1 <==> r == Err(WrongPartCount(TrimSpace(value)))
  {
    var v := TrimSpace(value);
    var a := Split(v, Dash);
    SplitLength(v, Dash);
    if |a| != 2 then Err(WrongPartCount(v))
    else match Atoi(a[0])
      case None => Err(NotANumber(a[0]))
      case Some(startPort) =>
        match Atoi(a[1])
        case None => Err(NotANumber(a[1]))
        case Some(stopPort) =>
          if stopPort < startPort then Err(StopBeforeStart(startPort, stopPort))
          else
            var r := flags + [Range(startPort, stopPort)];
            assert r[..|flags|] == flags;
            Ok(r)
  }

  /** `t` is `a-b` with dash-free integer sides and a start no greater than the stop. */
  predicate RangeText(t: string, a: string, b: string) {
    && Dash !in a && Dash !in b
    && t == a + [Dash] + b
    && Atoi(a).Some? && Atoi(b).Some?
    && Atoi(a).value <= Atoi(b).value
  }

  /** Splitting `a-b` with dash-free sides gives back the two sides. */
  lemma SplitRangeText(a: string, b: string)
    requires Dash !in a && Dash !in b
    ensures Split(a + [Dash] + b, Dash) == [a, b]
  {
    assert Join([a, b], Dash) == a + [Dash] + b by {
      assert [a, b][1..] == [b];
    }
    SplitJoin([a, b], Dash);
  }

  /** Every text of the accepted shape is accepted, and appends exactly its pair. */
  lemma SetAcceptsRangeText(flags: PortRangeFlag, value: string, a: string, b: string)
    requires RangeText(TrimSpace(value), a, b)
    ensures Set(flags, value) == Ok(flags + [Range(Atoi(a).value, Atoi(b).value)])
  {
    SplitRangeText(a, b);
  }

  /** Only texts of the accepted shape are accepted. */
  lemma SetAcceptsOnlyRangeText(flags: PortRangeFlag, value: string)
    ensures Set(flags, value).Ok? ==> exists a, b :: RangeText(TrimSpace(value), a, b)
  {
    if Set(flags, value).Ok? {
      var v := TrimSpace(value);
      var parts := Split(v, Dash);
      assert |parts| == 2;
      assert parts[1..] == [parts[1]];
      assert Join(parts, Dash) == parts[0] + [Dash] + parts[1];
      assert RangeText(v, parts[0], parts[1]);
    }
  }

  /** What `String` writes for one pair, `fmt`'s `%v` of a two-element `[]int`. */
  function RenderRange(r: Range): string {
    "[" + FormatInt(r.start) + " " + FormatInt(r.stop) + "]"
  }

  /** `String`: the pairs rendered one after another, in order. */
  function String(flags: PortRangeFlag): (s: string)
    ensures |s| == 0 <==> |flags| == 0
    decreases |flags|
  {
    if |flags| == 0 then "" else RenderRange(flags[0]) + String(flags[1..])
  }

  lemma {:induction false} StringAppend(a: PortRangeFlag, b: PortRangeFlag)
    ensures String(a + b) == String(a) + String(b)
    decreases |a|
  {
    if |a| == 0 {
      assert a + b == b;
    } else {
      assert (a + b)[1..] == a[1..] + b;
      StringAppend(a[1..], b);
    }
  }

  lemma StringSnoc(flags: PortRangeFlag, r: PortRangeFlag)
    requires |r| == |flags| + 1 && r[..|flags|] == flags
    ensures String(r) == String(flags) + RenderRange(r[|flags|])
  {
    assert r == flags + [r[|flags|]];
    StringAppend(flags, [r[|flags|]]);
    assert [r[|flags|]][1..] == [];
  }

  /** A text `Set` accepted shows up at the end of the rendering. */
  lemma SetExtendsString(flags: PortRangeFlag, value: string)
    requires Set(flags, value).Ok?
    ensures var r := Set(flags, value).value;
            String(r) == String(flags) + RenderRange(r[|flags|])
  {
    StringSnoc(flags, Set(flags, value).value);
  }

  /** A dash-free number between white-space padding is read back exactly. */
  lemma {:induction false} SetRoundTrip(flags: PortRangeFlag, w1: string, w2: string, startPort: int, stopPort: int)
    requires AllSpace(w1) && AllSpace(w2)
    requires 0 <= startPort <= stopPort <= MaxInt64
    ensures Set(flags, w1 + FormatInt(startPort) + "-" + FormatInt(stopPort) + w2)
         == Ok(flags + [Range(startPort, stopPort)])
  {
    var a := FormatInt(startPort);
    var b := FormatInt(stopPort);
    var t := a + "-" + b;
    assert w1 + a + "-" + b + w2 == w1 + t + w2;
    assert t[0] == a[0] && t[|t| - 1] == b[|b| - 1];
    TrimSpacePadded(w1, t, w2);
    AtoiFormatInt(startPort);
    AtoiFormatInt(stopPort);
    assert Dash !in a && Dash !in b;
    SetAcceptsRangeText(flags, w1 + t + w2, a, b);
  }

  /** A text `a-b` whose numbers are in the wrong order is rejected, naming both. */
  lemma SetRejectsReversedText(flags: PortRangeFlag, value: string, a: string, b: string)
    requires Dash !in a && Dash !in b && TrimSpace(value) == a + [Dash] + b
    requires Atoi(a).Some? && Atoi(b).Some? && Atoi(b).value < Atoi(a).value
    ensures Set(flags, value) == Err(StopBeforeStart(Atoi(a).value, Atoi(b).value))
  {
    SplitRangeText(a, b);
  }

  /** A stop below the start is rejected, even when both are valid numbers. */
  lemma {:induction false} SetRejectsReversed(flags: PortRangeFlag, startPort: int, stopPort: int)
    requires 0 <= stopPort < startPort <= MaxInt64
    ensures Set(flags, FormatInt(startPort) + "-" + FormatInt(stopPort)) == Err(StopBeforeStart(startPort, stopPort))
  {
    var a := FormatInt(startPort);
    var b := FormatInt(stopPort);
    var t := a + [Dash] + b;
    assert TrimSpace(t) == t by {
      assert "" + t + "" == t;
      TrimSpacePadded("", t, "");
    }
    AtoiFormatInt(startPort);
    AtoiFormatInt(stopPort);
    SetRejectsReversedText(flags, t, a, b);
  }

  /** The rendering of a negative start followed by `-` and a stop holds at least two dashes. */
  lemma NegativeRangeTextDashes(startPort: int, stopPort: int)
    requires startPort < 0
    ensures CountChar(TrimSpace(FormatInt(startPort) + "-" + FormatInt(stopPort)), Dash) >= 2
  {
    var a := FormatInt(startPort);
    var b := FormatInt(stopPort);
    var t := a + "-" + b;
    assert "" + t + "" == t;
    TrimSpacePadded("", t, "");
    var rest := a[1..];
    assert a == [Dash] + rest;
    CountCharAppend([Dash], rest, Dash);
    CountCharAppend(a, "-", Dash);
    CountCharAppend(a + "-", b, Dash);
  }

  /** A negative start adds a third dash-separated part, so it can never be given. */
  lemma SetRejectsNegativeStart(flags: PortRangeFlag, startPort: int, stopPort: int)
    requires startPort < 0
    ensures Set(flags, FormatInt(startPort) + "-" + FormatInt(stopPort)).Err?
  {
    NegativeRangeTextDashes(startPort, stopPort);
  }

  /** The first `c` in `s` splits it into the text before and after. */
  function SplitFirst(s: string, c: char): (r: Option<(string, string)>)
    ensures r.Some? ==> s == r.value.0 + [c] + r.value.1 && c !in r.value.0
    ensures r.None? <==> c !in s
    decreases |s|
  {
    if |s| == 0 then None
    else if s[0] == c then Some(([], s[1..]))
    else match SplitFirst(s[1..], c)
      case None => None
      case Some((before, after)) => Some(([s[0]] + before, after))
  }

  lemma {:induction false} SplitFirstAt(a: string, c: char, b: string)
    requires c !in a
    ensures SplitFirst(a + [c] + b, c) == Some((a, b))
    decreases |a|
  {
    if |a| > 0 {
      assert (a + [c] + b)[1..] == a[1..] + [c] + b;
      SplitFirstAt(a[1..], c, b);
      assert [a[0]] + a[1..] == a;
    } else {
      assert (a + [c] + b)[1..] == b;
    }
  }

  /** Reads a rendering back: a run of `[start stop]` groups. */
  function ParseRendered(s: string): Option<PortRangeFlag>
    decreases |s|
  {
    if |s| == 0 then Some([])
    else if s[0] != '[' then None
    else match SplitFirst(s[1..], ' ')
      case None => None
      case Some((first, rest)) =>
        match SplitFirst(rest, ']')
        case None => None
        case Some((second, tail)) =>
          match (Atoi(first), Atoi(second), ParseRendered(tail))
          case (Some(startPort), Some(stopPort), Some(more)) => Some([Range(startPort, stopPort)] + more)
          case _ => None
  }

  predicate Int64Ranges(flags: PortRangeFlag) {
    forall i :: 0 <= i < |flags| ==> IsInt64(flags[i].start) && IsInt64(flags[i].stop)
  }

  /** Reading one rendered pair off the front of a rendering. */
  lemma ParseRenderedCons(r: Range, tail: string)
    requires IsInt64(r.start) && IsInt64(r.stop)
    ensures ParseRendered(RenderRange(r) + tail)
         == if ParseRendered(tail).Some? then Some([r] + ParseRendered(tail).value) else None
  {
    var a := FormatInt(r.start);
    var b := FormatInt(r.stop);
    var s := RenderRange(r) + tail;
    assert s[0] == '[';
    assert s[1..] == a + [' '] + (b + [']'] + tail);
    assert ' ' !in a && ']' !in b;
    SplitFirstAt(a, ' ', b + [']'] + tail);
    SplitFirstAt(b, ']', tail);
    AtoiFormatInt(r.start);
    AtoiFormatInt(r.stop);
  }

  /** The rendering loses nothing: reading it back gives the flag list it came from. */
  lemma {:induction false} StringRoundTrip(flags: PortRangeFlag)
    requires Int64Ranges(flags)
    ensures ParseRendered(String(flags)) == Some(flags)
    decreases |flags|
  {
    if |flags| > 0 {
      var tail := String(flags[1..]);
      assert String(flags) == RenderRange(flags[0]) + tail;
      StringRoundTrip(flags[1..]);
      ParseRenderedCons(flags[0], tail);
      assert [flags[0]] + flags[1..] == flags;
    }
  }
}
