/** Audit log redaction: rewriting a JSON body so that sensitive strings are hidden. */
module Redaction {

  datatype Json =
    | Null
    | Bool(b: bool)
    | Number(n: int)
    | String(s: string)
    | Object(fields: map<string, Json>)
    | List(items: seq<Json>)

  const REDACTED := "[redacted]"

  /** Which names are sensitive: the configured pattern, and a fixed list of body fields. */
  datatype Policy = Policy(pattern: string -> bool, bodyFields: set<string>)

  predicate SensitiveKey(p: Policy, key: string) {
    p.pattern(key) || key in p.bodyFields
  }

  predicate HasFlagPrefix(s: string) {
    |s| >= 2 && s[0] == '-' && s[1] == '-'
  }

  /** A list element that announces a sensitive value in the element after it. */
  predicate SensitiveFlag(p: Policy, v: Json) {
    v.String? && HasFlagPrefix(v.s) && p.pattern(v.s)
  }

  /** Element `i` is overwritten before the pass reads it: the element before it is a
      sensitive flag and was not itself overwritten. */
  predicate Hidden(p: Policy, items: seq<Json>, i: int)
    requires i < |items|
    decreases i
  {
    0 < i && !Hidden(p, items, i - 1) && SensitiveFlag(p, items[i - 1])
  }

  /** The value with everything inside it redacted. */
  function Redacted(p: Policy, v: Json): Json
    decreases v, 0
  {
    match v
    case Object(fields) => Object(map k | k in fields :: RedactedField(p, k, fields[k]))
    case List(items) =>
      List(seq(|items|, i requires 0 <= i < |items| => RedactedItem(p, Hidden(p, items, i), items[i])))
    case _ => v
  }

  function RedactedField(p: Policy, key: string, v: Json): Json
    decreases v, 1
  {
    if v.String? then (if SensitiveKey(p, key) then String(REDACTED) else v) else Redacted(p, v)
  }

  function RedactedItem(p: Policy, hidden: bool, v: Json): Json
    decreases v, 1
  {
    if hidden then String(REDACTED) else if v.Object? then Redacted(p, v) else v
  }

  /** The pass reports a change. It also does when it overwrites a string that already
      was the placeholder. */
  ghost predicate Touches(p: Policy, v: Json)
    decreases v, 0
  {
    match v
    case Object(fields) => exists k :: k in fields && TouchesField(p, k, fields[k])
    case List(items) => exists i :: 0 <= i < |items| && TouchesItem(p, Hidden(p, items, i), items[i])
    case _ => false
  }

  ghost predicate TouchesField(p: Policy, key: string, v: Json)
    decreases v, 1
  {
    if v.String? then SensitiveKey(p, key) else Touches(p, v)
  }

  ghost predicate TouchesItem(p: Policy, hidden: bool, v: Json)
    decreases v, 1
  {
    hidden || (v.Object? && Touches(p, v))
  }

  /** Rewrites the fields of an object, in whatever order ranging over them yields. */
  method RedactMap(p: Policy, v: Json) returns (r: Json, changed: bool)
    requires v.Object?
    ensures r == Redacted(p, v)
    ensures changed <==> Touches(p, v)
    decreases v
  {
    var fields := v.fields;
    changed := false;
    var rest := fields.Keys;
    while rest != {}
      invariant rest <= v.fields.Keys == fields.Keys
      invariant forall k :: k in rest ==> fields[k] == v.fields[k]
      invariant forall k :: k in fields && k !in rest ==> fields[k] == RedactedField(p, k, v.fields[k])
      invariant changed <==> (exists k :: k in v.fields && k !in rest && TouchesField(p, k, v.fields[k]))
      decreases |rest|
    {
      var key :| key in rest;
      var val := fields[key];
      match val {
        case String(_) =>
          if SensitiveKey(p, key) {
            changed := true;
            fields := fields[key := String(REDACTED)];
          }
        case Object(_) =>
          var inner, hit := RedactMap(p, val);
          fields := fields[key := inner];
          changed := changed || hit;
        case List(_) =>
          var inner, hit := RedactSlice(p, val);
          fields := fields[key := inner];
          changed := changed || hit;
        case _ =>
      }
      rest := rest - {key};
    }
    assert fields == Redacted(p, v).fields;
    r := Object(fields);
  }

  /** Rewrites a list from front to back. A sensitive flag overwrites the element after it
      before that element is read. */
  method RedactSlice(p: Policy, v: Json) returns (r: Json, changed: bool)
    requires v.List?
    ensures r == Redacted(p, v)
    ensures changed <==> Touches(p, v)
    decreases v
  {
    var items := v.items;
    changed := false;
    var i := 0;
    while i < |items|
      invariant 0 <= i <= |items| == |v.items|
      invariant forall j :: 0 <= j < i ==> items[j] == RedactedItem(p, Hidden(p, v.items, j), v.items[j])
      invariant i < |items| ==> items[i] == if Hidden(p, v.items, i) then String(REDACTED) else v.items[i]
      invariant forall j :: i < j < |items| ==> items[j] == v.items[j]
      invariant changed <==>
                  || (i < |items| && Hidden(p, v.items, i))
                  || (exists j :: 0 <= j < i && TouchesItem(p, Hidden(p, v.items, j), v.items[j]))
    {
      var val := items[i];
      match val {
        case Object(_) =>
          var inner, hit := RedactMap(p, val);
          items := items[i := inner];
          changed := changed || hit;
        case String(s) =>
          if i + 1 < |items| && HasFlagPrefix(s) && p.pattern(s) {
            items := items[i + 1 := String(REDACTED)];
            changed := true;
          }
        case _ =>
      }
      i := i + 1;
    }
    assert items == Redacted(p, v).items;
    r := List(items);
  }

  /** What a redacted value promises: every string under a sensitive key of an object that
      is reached through object fields and through list elements that are objects is the
      placeholder, and so is every list element after a sensitive flag. */
  predicate Clean(p: Policy, v: Json)
    decreases v
  {
    match v
    case Object(fields) =>
      forall k :: k in fields ==>
        && (fields[k].String? && SensitiveKey(p, k) ==> fields[k] == String(REDACTED))
        && Clean(p, fields[k])
    case List(items) =>
      && (forall i :: 0 <= i < |items| && items[i].Object? ==> Clean(p, items[i]))
      && (forall i :: 0 < i < |items| && SensitiveFlag(p, items[i - 1]) ==> items[i] == String(REDACTED))
    case _ => true
  }

  lemma KindKept(p: Policy, v: Json)
    ensures Redacted(p, v).Object? == v.Object? && Redacted(p, v).List? == v.List?
    ensures !v.Object? && !v.List? ==> Redacted(p, v) == v
  {
  }

  /** The pass leaves nothing sensitive behind. */
  lemma {:induction false} RedactedIsClean(p: Policy, v: Json)
    ensures Clean(p, Redacted(p, v))
    decreases v
  {
    match v
    case Object(fields) =>
      var after := Redacted(p, v).fields;
      forall k | k in fields
        ensures Clean(p, after[k]) && (after[k].String? && SensitiveKey(p, k) ==> after[k] == String(REDACTED))
      {
        assert after[k] == RedactedField(p, k, fields[k]);
        KindKept(p, fields[k]);
        if !fields[k].String? { RedactedIsClean(p, fields[k]); }
      }
    case List(items) =>
      var after := Redacted(p, v).items;
      forall i | 0 <= i < |after| && after[i].Object? ensures Clean(p, after[i]) {
        assert after[i] == RedactedItem(p, Hidden(p, items, i), items[i]);
        KindKept(p, items[i]);
        RedactedIsClean(p, items[i]);
      }
      forall i | 0 < i < |after| && SensitiveFlag(p, after[i - 1]) ensures after[i] == String(REDACTED) {
        assert after[i - 1] == RedactedItem(p, Hidden(p, items, i - 1), items[i - 1]);
        KindKept(p, items[i - 1]);
        assert after[i] == RedactedItem(p, Hidden(p, items, i), items[i]);
        assert Hidden(p, items, i);
      }
    case _ =>
  }

  lemma {:induction false} CleanIsFixed(p: Policy, v: Json)
    requires Clean(p, v)
    ensures Redacted(p, v) == v
    decreases v
  {
    match v
    case Object(fields) =>
      forall k | k in fields ensures RedactedField(p, k, fields[k]) == fields[k] {
        CleanIsFixed(p, fields[k]);
      }
      assert Redacted(p, v).fields == fields;
    case List(items) =>
      forall i | 0 <= i < |items| ensures RedactedItem(p, Hidden(p, items, i), items[i]) == items[i] {
        if items[i].Object? { CleanIsFixed(p, items[i]); }
      }
      assert Redacted(p, v).items == items;
    case _ =>
  }

  /** A value is clean exactly when the pass leaves it as it is. */
  lemma CleanExactlyWhenFixed(p: Policy, v: Json)
    ensures Clean(p, v) <==> Redacted(p, v) == v
  {
    RedactedIsClean(p, v);
    if Clean(p, v) {
      CleanIsFixed(p, v);
    }
  }

  /** A second pass changes nothing. */
  lemma RedactionIsIdempotent(p: Policy, v: Json)
    ensures Redacted(p, Redacted(p, v)) == Redacted(p, v)
  {
    RedactedIsClean(p, v);
    CleanIsFixed(p, Redacted(p, v));
  }

  /** A pass that reports no change has changed nothing. */
  lemma {:induction false} NoReportMeansUnchanged(p: Policy, v: Json)
    requires !Touches(p, v)
    ensures Redacted(p, v) == v
    decreases v
  {
    match v
    case Object(fields) =>
      forall k | k in fields ensures Redacted(p, v).fields[k] == fields[k] {
        if !fields[k].String? { NoReportMeansUnchanged(p, fields[k]); }
      }
      assert Redacted(p, v).fields == fields;
    case List(items) =>
      forall i | 0 <= i < |items| ensures Redacted(p, v).items[i] == items[i] {
        if items[i].Object? { NoReportMeansUnchanged(p, items[i]); }
      }
      assert Redacted(p, v).items == items;
    case _ =>
  }

  /** `r` is `v` with some of its parts replaced by the placeholder and nothing else
      changed: objects keep their keys and lists their lengths. */
  predicate Covers(v: Json, r: Json)
    decreases v
  {
    || r == v
    || r == String(REDACTED)
    || (v.Object? && r.Object? && r.fields.Keys == v.fields.Keys
        && forall k :: k in v.fields ==> Covers(v.fields[k], r.fields[k]))
    || (v.List? && r.List? && |r.items| == |v.items|
        && forall i :: 0 <= i < |v.items| ==> Covers(v.items[i], r.items[i]))
  }

  /** The pass only covers: the shape of what stays in the tree is kept. */
  lemma {:induction false} RedactionOnlyCovers(p: Policy, v: Json)
    ensures Covers(v, Redacted(p, v))
    ensures !v.String? ==> Redacted(p, v) != String(REDACTED)
    decreases v
  {
    match v
    case Object(fields) =>
      forall k | k in fields ensures Covers(fields[k], Redacted(p, v).fields[k]) {
        RedactionOnlyCovers(p, fields[k]);
      }
    case List(items) =>
      forall i | 0 <= i < |items| ensures Covers(items[i], Redacted(p, v).items[i]) {
        RedactionOnlyCovers(p, items[i]);
      }
    case _ =>
  }

  /** `r` keeps what is not sensitive in `v`, at every depth: the string under a key that is not
      sensitive (under a sensitive one it stays a string), every list element that is neither
      hidden nor an object, and all keys and lengths. */
  predicate Spares(p: Policy, v: Json, r: Json)
    decreases v
  {
    match v
    case Object(fields) =>
      && r.Object? && r.fields.Keys == fields.Keys
      && forall k :: k in fields ==>
           if fields[k].String? then r.fields[k].String? && (SensitiveKey(p, k) || r.fields[k] == fields[k])
           else Spares(p, fields[k], r.fields[k])
    case List(items) =>
      && r.List? && |r.items| == |items|
      && forall i :: 0 <= i < |items| ==>
           || Hidden(p, items, i)
           || (if items[i].Object? then Spares(p, items[i], r.items[i]) else r.items[i] == items[i])
    case _ => r == v
  }

  /** The pass spares what is not sensitive. */
  lemma {:induction false} RedactionSpares(p: Policy, v: Json)
    ensures Spares(p, v, Redacted(p, v))
    decreases v
  {
    match v
    case Object(fields) =>
      var after := Redacted(p, v).fields;
      forall k | k in fields && !fields[k].String? ensures Spares(p, fields[k], after[k]) {
        RedactionSpares(p, fields[k]);
        assert after[k] == RedactedField(p, k, fields[k]) == Redacted(p, fields[k]);
      }
    case List(items) =>
      var after := Redacted(p, v).items;
      forall i | 0 <= i < |items| && !Hidden(p, items, i)
        ensures if items[i].Object? then Spares(p, items[i], after[i]) else after[i] == items[i]
      {
        assert after[i] == RedactedItem(p, false, items[i]);
        if items[i].Object? { RedactionSpares(p, items[i]); }
      }
    case _ =>
  }

  /** Nothing but the pass's own result is both clean and sparing. */
  lemma {:induction false} CleanAndSparingIsRedacted(p: Policy, v: Json, r: Json)
    requires Clean(p, r) && Spares(p, v, r)
    ensures r == Redacted(p, v)
    decreases v
  {
    match v
    case Object(fields) =>
      forall k | k in fields ensures r.fields[k] == RedactedField(p, k, fields[k]) {
        if !fields[k].String? { CleanAndSparingIsRedacted(p, fields[k], r.fields[k]); }
      }
      assert r.fields == Redacted(p, v).fields;
    case List(items) =>
      forall i | 0 <= i < |items| ensures r.items[i] == RedactedItem(p, Hidden(p, items, i), items[i]) {
        if Hidden(p, items, i) {
          assert r.items[i - 1] == items[i - 1];
        } else if items[i].Object? {
          CleanAndSparingIsRedacted(p, items[i], r.items[i]);
        }
      }
      assert r.items == Redacted(p, v).items;
    case _ =>
  }

  /** Which strings under a key are covered. */
  lemma FieldsExactly(p: Policy, fields: map<string, Json>, k: string)
    requires k in fields && fields[k].String?
    ensures k in Redacted(p, Object(fields)).fields
    ensures Redacted(p, Object(fields)).fields[k]
         == if p.pattern(k) || k in p.bodyFields then String("[redacted]") else fields[k]
  {
  }

  /** The element is a string that begins with two dashes and fits the pattern. */
  predicate IsFlag(p: Policy, v: Json) {
    v.String? && "--" <= v.s && p.pattern(v.s)
  }

  /** The `n` elements before element `i` are all the flags in a row there. */
  predicate FlagsBefore(p: Policy, items: seq<Json>, i: nat, n: nat)
    requires i < |items|
  {
    && n <= i && (forall j :: i - n <= j < i ==> IsFlag(p, items[j]))
    && (n < i ==> !IsFlag(p, items[i - n - 1]))
  }

  /** Which elements of a list are covered: those with an odd number of flags in a row before
      them, since a flag that is covered announces nothing. */
  lemma {:induction false} HiddenExactly(p: Policy, items: seq<Json>, i: nat, n: nat)
    requires i < |items| && FlagsBefore(p, items, i, n)
    ensures Hidden(p, items, i) <==> n % 2 == 1
    decreases n
  {
    if n > 0 {
      HiddenExactly(p, items, i - 1, n - 1);
    }
  }

  /** The placeholder is nowhere in the value. */
  predicate Unmarked(v: Json) {
    match v
    case String(s) => s != REDACTED
    case Object(fields) => forall k :: k in fields ==> Unmarked(fields[k])
    case List(items) => forall i :: 0 <= i < |items| ==> Unmarked(items[i])
    case _ => true
  }

  /** A pass over a value without placeholders reports a change if and only if it makes one. */
  lemma {:induction false} ReportsExactlyWhenChanged(p: Policy, v: Json)
    requires Unmarked(v)
    ensures Touches(p, v) <==> Redacted(p, v) != v
    decreases v
  {
    if !Touches(p, v) {
      NoReportMeansUnchanged(p, v);
    } else {
      match v
      case Object(fields) =>
        var k :| k in fields && TouchesField(p, k, fields[k]);
        if !fields[k].String? { ReportsExactlyWhenChanged(p, fields[k]); }
        assert Redacted(p, v).fields[k] == RedactedField(p, k, fields[k]) != fields[k];
      case List(items) =>
        var i :| 0 <= i < |items| && TouchesItem(p, Hidden(p, items, i), items[i]);
        if !Hidden(p, items, i) { ReportsExactlyWhenChanged(p, items[i]); }
        assert Redacted(p, v).items[i] == RedactedItem(p, Hidden(p, items, i), items[i]) != items[i];
    }
  }
}
