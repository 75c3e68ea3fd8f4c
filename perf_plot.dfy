/**
 * The plotting helpers of the Go benchmark (benchmarks/graph.go): the
 * ordered collection of measurement series and the digit-grouping hack.
 * Characters of a string stand for its bytes.
 */
module Graph {

  // ---------------------------------------------------------------------
  // addCommas
  // ---------------------------------------------------------------------

  function Reverse(s: string): (r: string)
    ensures |r| == |s|
  {
    if s == [] then [] else Reverse(s[1..]) + [s[0]]
  }

  /**
   * What addCommas builds, read left to right: before each character that
   * starts a group of three counted from the right end, a comma (including
   * before the very first character when the length is a multiple of 3).
   */
  function Commas(s: string): (r: string)
  {
    if s == [] then [] else (if |s| % 3 == 0 then "," else "") + [s[0]] + Commas(s[1..])
  }

  /** The string without its commas. */
  function Strip(s: string): (r: string)
  {
    if s == [] then [] else (if s[0] == ',' then "" else [s[0]]) + Strip(s[1..])
  }

  lemma {:induction false} ReverseAppend(a: string, b: string)
    ensures Reverse(a + b) == Reverse(b) + Reverse(a)
  {
    if a == [] {
      assert a + b == b;
    } else {
      assert (a + b)[1..] == a[1..] + b;
      ReverseAppend(a[1..], b);
    }
  }

  lemma {:induction false} ReverseReverse(s: string)
    ensures Reverse(Reverse(s)) == s
  {
    if s != [] {
      ReverseAppend(Reverse(s[1..]), [s[0]]);
      ReverseReverse(s[1..]);
    }
  }

  lemma {:induction false} StripAppend(a: string, b: string)
    ensures Strip(a + b) == Strip(a) + Strip(b)
  {
    if a == [] {
      assert a + b == b;
    } else {
      assert (a + b)[1..] == a[1..] + b;
      StripAppend(a[1..], b);
    }
  }

  /** addCommas(s) is s with one comma per full group of three: its length is len(s) + len(s)/3. */
  lemma {:induction false} CommasLength(s: string)
    ensures |Commas(s)| == |s| + |s| / 3
  {
    if s != [] {
      CommasLength(s[1..]);
    }
  }

  /** Removing every comma from addCommas(s) gives back s with its own commas removed. */
  lemma {:induction false} CommasStrip(s: string)
    ensures Strip(Commas(s)) == Strip(s)
  {
    if s != [] {
      var c := if |s| % 3 == 0 then "," else "";
      StripAppend(c + [s[0]], Commas(s[1..]));
      StripAppend(c, [s[0]]);
      assert Strip(c) == [];
      assert s == [s[0]] + s[1..];
      StripAppend([s[0]], s[1..]);
      CommasStrip(s[1..]);
    }
  }

  /** So a comma-free string comes back unchanged. */
  lemma CommasRoundTrip(s: string)
    requires ',' !in s
    ensures Strip(Commas(s)) == s
  {
    CommasStrip(s);
    StripNoCommas(s);
  }

  lemma {:induction false} StripNoCommas(s: string)
    requires ',' !in s
    ensures Strip(s) == s
  {
    if s != [] {
      assert s[0] in s;
      assert forall k :: 0 <= k < |s| - 1 ==> s[1..][k] == s[k + 1];
      StripNoCommas(s[1..]);
    }
  }

  /** Groups are counted from the right: a suffix of whole groups is grouped on its own. */
  lemma {:induction false} CommasSplit(a: string, b: string)
    requires |b| % 3 == 0
    ensures Commas(a + b) == Commas(a) + Commas(b)
  {
    if a == [] {
      assert a + b == b;
    } else {
      assert (a + b)[1..] == a[1..] + b;
      assert (a + b)[0] == a[0];
      CommasSplit(a[1..], b);
    }
  }

  /** A comma stands right before each group of three counted from the right. */
  lemma {:induction false} CommasLastGroup(s: string)
    requires |s| >= 3
    ensures Commas(s) == Commas(s[..|s| - 3]) + "," + s[|s| - 3..]
  {
    var t := s[|s| - 3..];
    assert s == s[..|s| - 3] + t;
    CommasSplit(s[..|s| - 3], t);
    ShortUnchanged(t[1..]);
    assert t == [t[0]] + t[1..];
  }

  /** Strings shorter than a group are unchanged. */
  lemma {:induction false} ShortUnchanged(s: string)
    requires |s| < 3
    ensures Commas(s) == s
  {
    if s != [] {
      ShortUnchanged(s[1..]);
      assert s == [s[0]] + s[1..];
    }
  }

  /**
   * The quick hack's flaw: a non-empty, comma-free string whose length is a
   * multiple of three comes back with a leading comma ("123" gives ",123").
   */
  lemma {:induction false} CommasLeadingComma(s: string)
    requires ',' !in s && |s| > 0
    ensures Commas(s)[0] == ',' <==> |s| % 3 == 0
  {
    assert s[0] in s;
  }

  lemma CommasLeadingCommaExample()
    ensures Commas("123") == ",123"
    ensures Commas("123456") == ",123,456"
  {
    ShortUnchanged("23");
    ShortUnchanged("56");
    CommasLastGroup("123456");
    assert "123456"[..3] == "123";
  }

  /** addCommas: builds the reversed, comma-grouped string, then reverses it. */
  method AddCommas(s: string) returns (r: string)
    ensures r == Commas(s)
  {
    var rev := "";
    var n := 0;
    var i := |s|;
    while i > 0
      invariant 0 <= i <= |s| && n == |s| - i
      invariant rev == Reverse(Commas(s[i..]))
    {
      i := i - 1;
      ghost var before := rev;
      rev := rev + [s[i]];
      n := n + 1;
      ghost var c := "";
      if n % 3 == 0 {
        rev := rev + ",";
        c := ",";
      }
      assert s[i..][1..] == s[i + 1..];
      ReverseAppend(c + [s[i]], Commas(s[i + 1..]));
      ReverseAppend(c, [s[i]]);
      assert Reverse(c) == c;
    }
    r := "";
    var j := |rev|;
    while j > 0
      invariant 0 <= j <= |rev|
      invariant r == Reverse(rev[j..])
    {
      j := j - 1;
      assert rev[j..][1..] == rev[j + 1..];
      r := r + [rev[j]];
    }
    ReverseReverse(Commas(s));
  }

  /**
   * The evidently intended grouping: commas only between groups, never in
   * front of the first character.
   */
  function GroupThousands(s: string): (r: string)
  {
    if |s| <= 3 then s else GroupThousands(s[..|s| - 3]) + "," + s[|s| - 3..]
  }

  /** The intended grouping has one comma per gap between groups and keeps the first character in front. */
  lemma {:induction false} GroupThousandsShape(s: string)
    ensures |GroupThousands(s)| == |s| + (if |s| == 0 then 0 else (|s| - 1) / 3)
    ensures |s| > 0 ==> GroupThousands(s)[0] == s[0]
  {
    if |s| > 3 {
      GroupThousandsShape(s[..|s| - 3]);
    }
  }

  /** Removing the commas from the intended grouping of a comma-free string gives it back. */
  lemma {:induction false} GroupThousandsStrip(s: string)
    requires ',' !in s
    ensures Strip(GroupThousands(s)) == s
  {
    if |s| <= 3 {
      StripNoCommas(s);
    } else {
      var p := s[..|s| - 3];
      var t := s[|s| - 3..];
      assert s == p + t;
      assert ',' !in p && ',' !in t by {
        forall c | c in p || c in t
          ensures c in s
        {
        }
      }
      GroupThousandsStrip(p);
      StripAppend(GroupThousands(p) + ",", t);
      StripAppend(GroupThousands(p), ",");
      StripNoCommas(t);
    }
  }

  /** The intended grouping is addCommas without its spurious leading comma. */
  lemma {:induction false} GroupThousandsFixesCommas(s: string)
    ensures Commas(s) == if |s| > 0 && |s| % 3 == 0 then "," + GroupThousands(s) else GroupThousands(s)
  {
    if |s| < 3 {
      ShortUnchanged(s);
    } else if |s| == 3 {
      CommasLastGroup(s);
      assert s[..0] == [] && s[0..] == s;
    } else {
      var p := s[..|s| - 3];
      GroupThousandsFixesCommas(p);
      CommasGroupStep(s, p, s[|s| - 3..]);
    }
  }

  /** One step of the recursion: the last group of a string longer than three characters. */
  lemma {:induction false} CommasGroupStep(s: string, p: string, t: string)
    requires |s| > 3 && p == s[..|s| - 3] && t == s[|s| - 3..]
    requires Commas(p) == if |p| % 3 == 0 then "," + GroupThousands(p) else GroupThousands(p)
    ensures Commas(s) == if |s| % 3 == 0 then "," + GroupThousands(s) else GroupThousands(s)
  {
    CommasLastGroup(s);
    var g := GroupThousands(p);
    assert GroupThousands(s) == g + "," + t;
    assert |p| % 3 == |s| % 3;
  }

  // ---------------------------------------------------------------------
  // PerfPlot
  // ---------------------------------------------------------------------

  /** One measurement: the parameter (bin count) and the duration in nanoseconds. */
  datatype Metric = Metric(param: int, t: int)

  /** Metrics.Len. */
  function Len(ms: seq<Metric>): (n: nat)
    ensures n == |ms|
  {
    |ms|
  }

  class PerfPlot {
    var seriesOrder: seq<string>
    var series: map<string, seq<Metric>>

    /** seriesOrder lists each key of series exactly once. */
    ghost predicate Valid()
      reads this
    {
      && (forall i, j :: 0 <= i < j < |seriesOrder| ==> seriesOrder[i] != seriesOrder[j])
      && (forall name :: name in series <==> name in seriesOrder)
    }

    /** NewPerfPlot. */
    constructor ()
      ensures Valid() && seriesOrder == [] && series == map[]
    {
      seriesOrder := [];
      series := map[];
    }

    method Clear()
      modifies this
      ensures Valid() && seriesOrder == [] && series == map[]
    {
      seriesOrder := [];
      series := map[];
    }

    /**
     * Appends {param, t} to the named series; a series seen for the first
     * time is also appended to seriesOrder.
     */
    method AddMetric(name: string, param: int, t: int)
      requires Valid()
      modifies this
      ensures Valid()
      ensures name in series && series[name] == old(if name in series then series[name] else []) + [Metric(param, t)]
      ensures Len(series[name]) == old(if name in series then Len(series[name]) else 0) + 1
      ensures forall other :: other != name ==> (other in series <==> other in old(series))
      ensures forall other :: other != name && other in old(series) ==> series[other] == old(series[other])
      ensures seriesOrder == if name in old(series) then old(seriesOrder) else old(seriesOrder) + [name]
    {
      var s: seq<Metric>;
      if name in series {
        s := series[name];
      } else {
        seriesOrder := seriesOrder + [name];
        s := [];
      }
      s := s + [Metric(param, t)];
      series := series[name := s];
    }
  }
}
