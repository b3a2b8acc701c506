/** Node taints and their textual form. */
module Taints {
  import opened Options
  import opened Text

  datatype Taint = Taint(key: string, value: string, effect: string)

  function Print(t: Taint): string {
    t.key + "=" + t.value + ":" + t.effect
  }

  function KeyEffect(t: Taint): string {
    t.key + ":" + t.effect
  }

  function Parse(s: string): Option<Taint> {
    var outer := Split(s, '=');
    if |outer| != 2 then None
    else
      var inner := Split(outer[1], ':');
      if |inner| != 2 then None
      else Some(Taint(outer[0], inner[0], inner[1]))
  }

  /** The taints that survive being printed and parsed. */
  predicate Printable(t: Taint) {
    && '=' !in t.key && '=' !in t.value && '=' !in t.effect
    && ':' !in t.value && ':' !in t.effect
  }

  lemma {:induction false} SplitAtLeastTwo(a: string, c: char, b: string)
    ensures |Split(a + [c] + b, c)| >= 2
  {
    SplitWhole(a + [c] + b, c);
    assert (a + [c] + b)[|a|] == c;
  }

  /** A separator before the last one makes at least three parts. */
  lemma {:induction false} SplitLong(a: string, c: char, b: string)
    requires c in a
    ensures |Split(a + [c] + b, c)| >= 3
  {
    assert (a + [c] + b)[1..] == a[1..] + [c] + b;
    if a[0] == c {
      SplitAtLeastTwo(a[1..], c, b);
    } else {
      SplitLong(a[1..], c, b);
    }
  }

  lemma SplitPair(a: string, c: char, b: string)
    ensures |Split(a + [c] + b, c)| == 2 <==> c !in a && c !in b
    ensures c !in a && c !in b ==> Split(a + [c] + b, c) == [a, b]
  {
    var s := a + [c] + b;
    SplitWhole(b, c);
    if c !in a {
      SplitFirst(a, c, b);
    } else {
      SplitLong(a, c, b);
    }
  }

  lemma PrintText(t: Taint)
    ensures Print(t) == t.key + ['='] + (t.value + [':'] + t.effect)
  {
    assert Print(t) == t.key + ['='] + t.value + [':'] + t.effect;
  }

  /** Print then parse: the taint comes back exactly when it is printable, and nothing comes
      back otherwise. */
  lemma ParsePrinted(t: Taint)
    ensures Parse(Print(t)) == if Printable(t) then Some(t) else None
  {
    var tail := t.value + [':'] + t.effect;
    PrintText(t);
    SplitPair(t.key, '=', tail);
    SplitPair(t.value, ':', t.effect);
  }

  /** Two parts without the separator and the text they come from. */
  lemma SplitInTwo(s: string, c: char)
    requires |Split(s, c)| == 2
    ensures s == Split(s, c)[0] + [c] + Split(s, c)[1]
    ensures c !in Split(s, c)[0] && c !in Split(s, c)[1]
  {
    JoinSplit(s, c);
    SplitIsFree(s, c);
  }

  lemma PartsAvoid(a: string, c: char, b: string, d: char)
    requires d !in a + [c] + b
    ensures d !in a && d !in b
  {
    forall i | 0 <= i < |a| ensures a[i] != d { assert (a + [c] + b)[i] == a[i]; }
    forall i | 0 <= i < |b| ensures b[i] != d { assert (a + [c] + b)[|a| + 1 + i] == b[i]; }
  }

  /** Parse then print: an accepted string comes back, and only printable taints are read. */
  lemma PrintParsed(s: string)
    requires Parse(s).Some?
    ensures Print(Parse(s).value) == s
    ensures Printable(Parse(s).value)
  {
    SplitInTwo(s, '=');
    var outer := Split(s, '=');
    SplitInTwo(outer[1], ':');
    var inner := Split(outer[1], ':');
    PartsAvoid(inner[0], ':', inner[1], '=');
    PrintText(Taint(outer[0], inner[0], inner[1]));
  }

  /** The strings of a list of taints. */
  function PrintAll(taints: seq<Taint>): seq<string> {
    if taints == [] then [] else PrintAll(taints[..|taints| - 1]) + [Print(taints[|taints| - 1])]
  }

  /** The taints of a list of strings; strings that are no taint are passed over. */
  function ParseAll(sources: seq<string>): seq<Taint> {
    if sources == [] then []
    else
      var last := Parse(sources[|sources| - 1]);
      ParseAll(sources[..|sources| - 1]) + if last.Some? then [last.value] else []
  }

  method GetStringsFromTaint(taints: seq<Taint>) returns (r: seq<string>)
    ensures r == PrintAll(taints)
  {
    r := [];
    for i := 0 to |taints|
      invariant r == PrintAll(taints[..i])
    {
      assert taints[..i + 1][..i] == taints[..i];
      r := r + [Print(taints[i])];
    }
    assert taints[..|taints|] == taints;
  }

  method GetTaintsFromStrings(sources: seq<string>) returns (r: seq<Taint>)
    ensures r == ParseAll(sources)
  {
    r := [];
    for i := 0 to |sources|
      invariant r == ParseAll(sources[..i])
    {
      assert sources[..i + 1][..i] == sources[..i];
      var taint := Parse(sources[i]);
      if taint.None? {
        continue;
      }
      r := r + [taint.value];
    }
    assert sources[..|sources|] == sources;
  }

  predicate AllPrintable(taints: seq<Taint>) {
    forall i :: 0 <= i < |taints| ==> Printable(taints[i])
  }

  function OnlyPrintable(taints: seq<Taint>): seq<Taint> {
    if taints == [] then []
    else OnlyPrintable(taints[..|taints| - 1]) +
         if Printable(taints[|taints| - 1]) then [taints[|taints| - 1]] else []
  }

  lemma {:induction false} OnlyPrintableExactly(taints: seq<Taint>, t: Taint)
    ensures t in OnlyPrintable(taints) <==> t in taints && Printable(t)
  {
    if taints != [] {
      OnlyPrintableExactly(taints[..|taints| - 1], t);
      assert taints == taints[..|taints| - 1] + [taints[|taints| - 1]];
    }
  }

  lemma {:induction false} PrintableStay(taints: seq<Taint>)
    requires AllPrintable(taints)
    ensures OnlyPrintable(taints) == taints
  {
    if taints != [] {
      PrintableStay(taints[..|taints| - 1]);
    }
  }

  lemma {:induction false} OthersGo(taints: seq<Taint>, i: nat)
    ensures |OnlyPrintable(taints)| <= |taints|
    ensures i < |taints| && !Printable(taints[i]) ==> |OnlyPrintable(taints)| < |taints|
    decreases |taints|
  {
    if taints != [] {
      OthersGo(taints[..|taints| - 1], i);
    }
  }

  /** Nothing is dropped exactly when all is printable. */
  lemma AllStayExactlyWhen(taints: seq<Taint>)
    ensures OnlyPrintable(taints) == taints <==> AllPrintable(taints)
  {
    if AllPrintable(taints) {
      PrintableStay(taints);
    } else {
      var i :| 0 <= i < |taints| && !Printable(taints[i]);
      OthersGo(taints, i);
    }
  }

  /** Printing and parsing a list drops what is not printable and keeps the rest in order;
      so the list comes back exactly when all of it is printable. */
  lemma {:induction false} ParsePrintedAll(taints: seq<Taint>)
    ensures ParseAll(PrintAll(taints)) == OnlyPrintable(taints)
    ensures ParseAll(PrintAll(taints)) == taints <==> AllPrintable(taints)
  {
    AllStayExactlyWhen(taints);
    if taints != [] {
      var rest, last := taints[..|taints| - 1], taints[|taints| - 1];
      ParsePrintedAll(rest);
      ParsePrinted(last);
      assert PrintAll(taints)[..|PrintAll(taints)| - 1] == PrintAll(rest);
    }
  }

  lemma PrintAllGrows(taints: seq<Taint>, t: Taint)
    ensures PrintAll(taints + [t]) == PrintAll(taints) + [Print(t)]
  {
    assert (taints + [t])[..|taints|] == taints;
  }

  /** Parsing and printing a list of accepted strings gives the list back. */
  lemma {:induction false} PrintParsedAll(sources: seq<string>)
    requires forall i :: 0 <= i < |sources| ==> Parse(sources[i]).Some?
    ensures PrintAll(ParseAll(sources)) == sources
  {
    if sources != [] {
      var rest, last := sources[..|sources| - 1], sources[|sources| - 1];
      PrintParsedAll(rest);
      PrintParsed(last);
      PrintAllGrows(ParseAll(rest), Parse(last).value);
      assert sources == rest + [last];
    }
  }
}
