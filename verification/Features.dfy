/** Feature flags as text: the server prints a map of features for an agent, which reads
    it back into its registry. */
module Features {
  import opened Options
  import opened Text

  /** A registered feature: its default and its current value. */
  datatype Feature = Feature(def: bool, val: bool)

  function BoolText(v: bool): string {
    if v then "true" else "false"
  }

  /** The spellings a boolean may have. */
  function ParseBool(s: string): Option<bool> {
    if s in {"1", "t", "T", "TRUE", "true", "True"} then Some(true)
    else if s in {"0", "f", "F", "FALSE", "false", "False"} then Some(false)
    else None
  }

  function Item(key: string, v: bool): string {
    key + "=" + BoolText(v)
  }

  function Items(features: map<string, bool>, keys: seq<string>): seq<string>
    requires forall i :: 0 <= i < |keys| ==> keys[i] in features
  {
    if keys == [] then []
    else Items(features, keys[..|keys| - 1]) + [Item(keys[|keys| - 1], features[keys[|keys| - 1]])]
  }

  predicate IsFeatureStringFor(features: map<string, bool>, keys: seq<string>, s: string) {
    && Sorted(keys) && Distinct(keys) && Elements(keys) == features.Keys
    && (forall i :: 0 <= i < |keys| ==> keys[i] in features)
    && s == Join(Items(features, keys), ',')
  }

  /** The text is the items of the features in the order of their names. */
  ghost predicate IsFeatureString(features: map<string, bool>, s: string) {
    exists keys :: IsFeatureStringFor(features, keys, s)
  }

  lemma JoinGrows(parts: seq<string>, part: string, c: char)
    ensures Join(parts + [part], c) == if parts == [] then part else Join(parts, c) + [c] + part
  {
    if parts != [] {
      JoinSplits(parts, [part], c);
    } else {
      assert parts + [part] == [part];
    }
  }

  lemma ItemText(key: string, v: bool)
    ensures key + (if v then "=true" else "=false") == Item(key, v)
    ensures Item(key, v) != ""
  {
  }

  lemma {:induction false} ItemNotEmpty(features: map<string, bool>, keys: seq<string>)
    requires keys != [] && forall i :: 0 <= i < |keys| ==> keys[i] in features
    ensures Items(features, keys) != [] && Items(features, keys)[0] != ""
  {
    if |keys| > 1 {
      ItemNotEmpty(features, keys[..|keys| - 1]);
    }
  }

  /** The text grows by one item, with a comma in front unless it is the first. */
  lemma TextGrows(features: map<string, bool>, keys: seq<string>, i: nat)
    requires i < |keys| && forall j :: 0 <= j < |keys| ==> keys[j] in features
    ensures var before, item := Join(Items(features, keys[..i]), ','), Item(keys[i], features[keys[i]]);
            Join(Items(features, keys[..i + 1]), ',') == if i == 0 then item else before + "," + item
  {
    assert keys[..i + 1][..i] == keys[..i];
    JoinGrows(Items(features, keys[..i]), Item(keys[i], features[keys[i]]), ',');
    if i > 0 { ItemNotEmpty(features, keys[..i]); }
  }

  /** There is only one text for a map of features. */
  lemma FeatureStringIsUnique(features: map<string, bool>, s: string, s': string)
    requires IsFeatureString(features, s) && IsFeatureString(features, s')
    ensures s == s'
  {
    var keys :| IsFeatureStringFor(features, keys, s);
    var keys' :| IsFeatureStringFor(features, keys', s');
    SortedIsUnique(keys, keys');
  }

  method ToFeatureString(features: map<string, bool>) returns (s: string)
    ensures IsFeatureString(features, s)
  {
    var keys := SortStrings(features.Keys);
    forall i | 0 <= i < |keys| ensures keys[i] in features { assert keys[i] in Elements(keys); }
    s := "";
    for i := 0 to |keys|
      invariant s == Join(Items(features, keys[..i]), ',')
      invariant s == "" <==> i == 0
    {
      TextGrows(features, keys, i);
      ItemText(keys[i], features[keys[i]]);
      var v := features[keys[i]];
      if |s| > 0 {
        s := s + ",";
      }
      s := s + (keys[i] + (if v then "=true" else "=false"));
    }
    assert keys[..|keys|] == keys;
    assert IsFeatureStringFor(features, keys, s);
  }

  /** One item of the argument: a registered name and a boolean. */
  function ParseItem(registered: set<string>, item: string): Option<(string, bool)> {
    var parts := Split(item, '=');
    if |parts| != 2 then None
    else if parts[0] !in registered then None
    else if ParseBool(parts[1]).None? then None
    else Some((parts[0], ParseBool(parts[1]).value))
  }

  /** All items; of several for the same name the last one counts, and one bad item
      spoils the whole. */
  function ParseItems(registered: set<string>, items: seq<string>): Option<map<string, bool>> {
    if items == [] then Some(map[])
    else
      var rest := ParseItems(registered, items[..|items| - 1]);
      var last := ParseItem(registered, items[|items| - 1]);
      if rest.None? || last.None? then None
      else Some(rest.value[last.value.0 := last.value.1])
  }

  function ParseArgument(registered: set<string>, s: string): Option<map<string, bool>> {
    if s == "" then Some(map[]) else ParseItems(registered, Split(s, ','))
  }

  function Applied(features: map<string, Feature>, values: map<string, bool>): map<string, Feature> {
    map k | k in features :: if k in values then Feature(values[k], values[k]) else features[k]
  }

  lemma {:induction false} BadItemSpoils(registered: set<string>, items: seq<string>, i: nat)
    requires i <= |items| && ParseItems(registered, items[..i]).None?
    ensures ParseItems(registered, items).None?
    decreases |items|
  {
    if i < |items| {
      assert items[..|items| - 1][..i] == items[..i];
      BadItemSpoils(registered, items[..|items| - 1], i);
    } else {
      assert items[..i] == items;
    }
  }

  /** Reads and checks every item of a non-empty argument. */
  method ReadItems(registered: set<string>, items: seq<string>) returns (r: Option<map<string, bool>>)
    ensures r == ParseItems(registered, items)
  {
    var values: map<string, bool> := map[];
    var i := 0;
    while i < |items|
      invariant 0 <= i <= |items|
      invariant ParseItems(registered, items[..i]) == Some(values)
    {
      assert items[..i + 1][..i] == items[..i];
      var item := ParseItem(registered, items[i]);
      i := i + 1;
      if item.None? {
        BadItemSpoils(registered, items, i);
        return None;
      }
      values := values[item.value.0 := item.value.1];
    }
    assert items[..i] == items;
    return Some(values);
  }

  lemma {:induction false} ReadNamesAreRegistered(registered: set<string>, items: seq<string>)
    requires ParseItems(registered, items).Some?
    ensures ParseItems(registered, items).value.Keys <= registered
  {
    if items != [] {
      ReadNamesAreRegistered(registered, items[..|items| - 1]);
    }
  }

  class Registry {
    var features: map<string, Feature>

    constructor (features: map<string, Feature>)
      ensures this.features == features
    {
      this.features := features;
    }

    method Apply(values: map<string, bool>)
      requires values.Keys <= features.Keys
      modifies this
      ensures features == Applied(old(features), values)
    {
      var rest := values.Keys;
      while rest != {}
        invariant rest <= values.Keys
        invariant features == map k | k in old(features) ::
                    if k in values && k !in rest then Feature(values[k], values[k]) else old(features)[k]
        decreases |rest|
      {
        var k :| k in rest;
        features := features[k := Feature(values[k], values[k])];
        rest := rest - {k};
      }
    }

    /** All items are read and checked before the first feature is set. */
    method ApplyArgumentDefaults(args: string) returns (ok: bool)
      modifies this
      ensures ok == ParseArgument(old(features).Keys, args).Some?
      ensures features == if ok then Applied(old(features), ParseArgument(old(features).Keys, args).value)
                          else old(features)
    {
      if args == "" {
        assert Applied(features, map[]) == features;
        return true;
      }
      var values := ReadItems(features.Keys, Split(args, ','));
      if values.None? {
        return false;
      }
      ReadNamesAreRegistered(features.Keys, Split(args, ','));
      Apply(values.value);
      ok := true;
    }
  }

  /** The argument is refused, and every feature left alone, exactly when some item is
      malformed or names no registered feature. */
  lemma {:induction false} RefusedExactlyWhen(registered: set<string>, items: seq<string>)
    ensures ParseItems(registered, items).None? <==>
              exists i :: 0 <= i < |items| && ParseItem(registered, items[i]).None?
  {
    if items != [] {
      RefusedExactlyWhen(registered, items[..|items| - 1]);
    }
  }

  predicate Clean(key: string) {
    ',' !in key && '=' !in key
  }

  lemma ItemReadsBack(registered: set<string>, key: string, v: bool)
    requires '=' !in key
    ensures ParseItem(registered, Item(key, v)) == if key in registered then Some((key, v)) else None
    ensures ',' !in key ==> ',' !in Item(key, v)
  {
    var text := BoolText(v);
    assert '=' !in text && ',' !in text;
    assert Item(key, v) == key + ['='] + text;
    SplitFirst(key, '=', text);
    SplitWhole(text, '=');
  }

  function Restricted(features: map<string, bool>, keys: seq<string>): map<string, bool> {
    map k | k in keys && k in features :: features[k]
  }

  lemma RestrictedGrows(features: map<string, bool>, keys: seq<string>, key: string)
    requires key in features
    ensures Restricted(features, keys + [key]) == Restricted(features, keys)[key := features[key]]
  {
  }

  lemma {:induction false} ItemsAreFree(features: map<string, bool>, keys: seq<string>)
    requires forall i :: 0 <= i < |keys| ==> keys[i] in features && Clean(keys[i])
    ensures Free(Items(features, keys), ',') && |Items(features, keys)| == |keys|
  {
    if keys != [] {
      ItemsAreFree(features, keys[..|keys| - 1]);
      ItemReadsBack({}, keys[|keys| - 1], features[keys[|keys| - 1]]);
    }
  }

  lemma ItemsGrow(features: map<string, bool>, keys: seq<string>, key: string)
    requires key in features && forall i :: 0 <= i < |keys| ==> keys[i] in features
    ensures Items(features, keys + [key]) == Items(features, keys) + [Item(key, features[key])]
  {
    assert (keys + [key])[..|keys|] == keys;
  }

  lemma ParseOneMore(registered: set<string>, items: seq<string>, item: string, values: map<string, bool>, key: string, v: bool)
    requires ParseItems(registered, items) == Some(values) && ParseItem(registered, item) == Some((key, v))
    ensures ParseItems(registered, items + [item]) == Some(values[key := v])
  {
    assert (items + [item])[..|items|] == items;
  }

  lemma {:induction false} ItemsReadBack(registered: set<string>, features: map<string, bool>, keys: seq<string>)
    requires forall i :: 0 <= i < |keys| ==> keys[i] in features && Clean(keys[i]) && keys[i] in registered
    ensures ParseItems(registered, Items(features, keys)) == Some(Restricted(features, keys))
  {
    if keys == [] {
      assert Restricted(features, keys) == map[];
    } else {
      var rest, last := keys[..|keys| - 1], keys[|keys| - 1];
      assert keys == rest + [last];
      ItemsReadBack(registered, features, rest);
      ItemReadsBack(registered, last, features[last]);
      RestrictedGrows(features, rest, last);
      ItemsGrow(features, rest, last);
      ParseOneMore(registered, Items(features, rest), Item(last, features[last]), Restricted(features, rest), last, features[last]);
    }
  }

  /** What is read never has a separator in a name. */
  lemma {:induction false} ReadNamesAreClean(registered: set<string>, items: seq<string>)
    requires Free(items, ',') && ParseItems(registered, items).Some?
    ensures forall k :: k in ParseItems(registered, items).value ==> Clean(k) && k in registered
  {
    if items != [] {
      ReadNamesAreClean(registered, items[..|items| - 1]);
      var item := items[|items| - 1];
      SplitIsFree(item, '=');
      JoinSplit(item, '=');
      assert Split(item, '=')[0] <= item;
    }
  }

  lemma RestrictedToAll(features: map<string, bool>, keys: seq<string>)
    requires Elements(keys) == features.Keys
    ensures Restricted(features, keys) == features
  {
    forall k | k in features ensures k in keys { assert k in Elements(keys); }
  }

  /** The printed text splits into the items it was printed from. */
  lemma TextSplits(features: map<string, bool>, keys: seq<string>, s: string)
    requires IsFeatureStringFor(features, keys, s) && forall k :: k in features ==> Clean(k)
    ensures if keys == [] then s == "" else s != "" && Split(s, ',') == Items(features, keys)
  {
    ItemsAreFree(features, keys);
    if keys != [] {
      ItemNotEmpty(features, keys);
      SplitJoined(Items(features, keys), ',');
    }
  }

  lemma ArgumentReadsBack(registered: set<string>, features: map<string, bool>, s: string)
    requires IsFeatureString(features, s)
    requires forall k :: k in features ==> k in registered && Clean(k)
    ensures ParseArgument(registered, s) == Some(features)
  {
    var keys :| IsFeatureStringFor(features, keys, s);
    RestrictedToAll(features, keys);
    ItemsReadBack(registered, features, keys);
    TextSplits(features, keys, s);
  }

  /** Round trip. The printed features read back as the same map exactly when every name
      is registered and has no separator in it. */
  lemma RoundTripExactlyWhen(registered: set<string>, features: map<string, bool>, s: string)
    requires IsFeatureString(features, s)
    ensures ParseArgument(registered, s) == Some(features) <==>
              forall k :: k in features ==> k in registered && Clean(k)
  {
    if forall k :: k in features ==> k in registered && Clean(k) {
      ArgumentReadsBack(registered, features, s);
    } else if ParseArgument(registered, s).Some? && s != "" {
      SplitIsFree(s, ',');
      ReadNamesAreClean(registered, Split(s, ','));
    }
  }

  lemma LoneFeature(key: string, v: bool)
    ensures IsFeatureString(map[key := v], Item(key, v))
  {
    var features, keys := map[key := v], [key];
    assert keys[..0] == [];
    assert Items(features, keys) == [Item(key, v)];
    assert Elements(keys) == {key} == features.Keys;
    assert IsFeatureStringFor(features, keys, Item(key, v));
  }

  /** It fails for every name with a separator in it, even one that is registered. */
  lemma SeparatorBreaksRoundTrip(key: string, v: bool)
    requires !Clean(key)
    ensures IsFeatureString(map[key := v], Item(key, v))
    ensures ParseArgument({key}, Item(key, v)) != Some(map[key := v])
  {
    LoneFeature(key, v);
    RoundTripExactlyWhen({key}, map[key := v], Item(key, v));
    assert key in map[key := v];
  }

  /** For example, a feature named a,b is printed and then refused. */
  lemma CommaBreaksRoundTrip()
    ensures IsFeatureString(map["a,b" := true], "a,b=true")
    ensures ParseArgument({"a,b"}, "a,b=true").None?
  {
    var item: string := "b=true";
    assert "a,b=true" == Item("a,b", true) == "a" + [','] + item;
    LoneFeature("a,b", true);
    SplitFirst("a", ',', item);
    SplitWhole("a", '=');
    assert Split("a,b=true", ',')[0] == "a";
    RefusedExactlyWhen({"a,b"}, Split("a,b=true", ','));
  }

  /** What a successful round trip does to the agent's registry: exactly the printed features
      get the printed value, as default and as value, and all others stay as they are. */
  lemma RoundTripSetsExactly(registry: map<string, Feature>, features: map<string, bool>, s: string, name: string)
    requires IsFeatureString(features, s) && name in registry
    requires forall k :: k in features ==> k in registry && Clean(k)
    ensures ParseArgument(registry.Keys, s).Some?
    ensures Applied(registry, ParseArgument(registry.Keys, s).value)[name]
         == if name in features then Feature(features[name], features[name]) else registry[name]
  {
    ArgumentReadsBack(registry.Keys, features, s);
  }
}
