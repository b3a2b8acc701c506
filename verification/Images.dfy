/** The image list: converting image names to their mirrored names in the very map
    that is being ranged over, and printing the result. */
module Images {
  import opened Text

  /** Each image with the set of sources that ask for it. */
  type ImageSet = map<string, set<string>>

  function Sources(images: ImageSet, image: string): set<string> {
    if image in images then images[image] else {}
  }

  function Added(images: ImageSet, image: string, sources: set<string>): ImageSet {
    if image == "" then images else images[image := Sources(images, image) + sources]
  }

  lemma AddedTwice(images: ImageSet, image: string, a: set<string>, b: set<string>)
    ensures Added(Added(images, image, a), image, b) == Added(images, image, a + b)
  {
    assert Sources(images, image) + a + b == Sources(images, image) + (a + b);
  }

  method AddSourceToImage(images: ImageSet, image: string, sources: seq<string>) returns (r: ImageSet)
    ensures r == Added(images, image, Elements(sources))
  {
    r := images;
    if image == "" {
      return;
    }
    r := r[image := if image in r then r[image] else {}];
    assert Sources(images, image) + {} == Sources(images, image);
    assert Elements(sources[..0]) == {};
    var i := 0;
    while i < |sources|
      invariant 0 <= i <= |sources|
      invariant r == Added(images, image, Elements(sources[..i]))
    {
      AddedTwice(images, image, Elements(sources[..i]), {sources[i]});
      r := r[image := r[image] + {sources[i]}];
      assert Elements(sources[..i + 1]) == Elements(sources[..i]) + {sources[i]};
      i := i + 1;
    }
    assert sources[..i] == sources;
  }

  /** One turn of the range loop: the sources move to the mirrored name. */
  function Visited(mirror: string -> string, images: ImageSet, image: string): ImageSet
    requires image in images
  {
    if mirror(image) == image then images
    else if images[image] == {} then images - {image}
    else Added(images, mirror(image), images[image]) - {image}
  }

  /** The map after the keys of `order` were visited. */
  function Walked(mirror: string -> string, images: ImageSet, order: seq<string>): ImageSet {
    if order == [] then images
    else
      var before := Walked(mirror, images, order[..|order| - 1]);
      var image := order[|order| - 1];
      if image in before then Visited(mirror, before, image) else before
  }

  /** Each key of `order` is in the map when it is visited. */
  predicate Follows(mirror: string -> string, images: ImageSet, order: seq<string>) {
    order == [] ||
    (var before := order[..|order| - 1];
     Follows(mirror, images, before) && order[|order| - 1] in Walked(mirror, images, before))
  }

  /** An order in which ranging over the map may go: only keys that are there, among them
      every key there was at the start; keys added on the way may be visited or not. */
  ghost predicate Allowed(mirror: string -> string, images: ImageSet, order: seq<string>) {
    Follows(mirror, images, order) && forall x :: x in images ==> x in order
  }

  lemma FollowsOn(mirror: string -> string, images: ImageSet, order: seq<string>, image: string)
    requires Follows(mirror, images, order) && image in Walked(mirror, images, order)
    ensures Follows(mirror, images, order + [image])
    ensures Walked(mirror, images, order + [image]) == Visited(mirror, Walked(mirror, images, order), image)
  {
    assert (order + [image])[..|order|] == order;
  }

  /** Adds the sources one by one to another image. */
  method MoveSources(images: ImageSet, image: string, sources: set<string>) returns (r: ImageSet)
    ensures r == if sources == {} then images else Added(images, image, sources)
  {
    r := images;
    var rest, moved := sources, {};
    while rest != {}
      invariant rest + moved == sources
      invariant r == if moved == {} then images else Added(images, image, moved)
      decreases |rest|
    {
      var source :| source in rest;
      assert Elements([source]) == {source};
      AddedTwice(images, image, moved, {source});
      r := AddSourceToImage(r, image, [source]);
      rest, moved := rest - {source}, moved + {source};
    }
  }

  method VisitImage(mirror: string -> string, images: ImageSet, image: string) returns (r: ImageSet)
    requires image in images
    ensures r == Visited(mirror, images, image)
  {
    r := images;
    var converted := mirror(image);
    if image != converted {
      r := MoveSources(images, converted, images[image]);
      r := r - {image};
    }
  }

  lemma VisitKeepsOthers(mirror: string -> string, images: ImageSet, image: string)
    requires image in images
    ensures forall k :: k in images && k != image ==>
              k in Visited(mirror, images, image) && images[k] <= Visited(mirror, images, image)[k]
  {
  }

  /** The range loop. Which key comes next, and how many of the keys added on the way come at
      all, is not determined. `order` is the order it happened to take. */
  method ConvertMirroredImages(mirror: string -> string, images: ImageSet) returns (r: ImageSet, order: seq<string>)
    ensures Allowed(mirror, images, order)
    ensures r == Walked(mirror, images, order)
  {
    r, order := images, [];
    var rest, visited := images.Keys, {};
    var moreToCome: nat := *;
    while rest != {} || moreToCome > 0
      invariant rest <= r.Keys && forall x :: x in images ==> x in rest || x in order
      invariant Follows(mirror, images, order) && r == Walked(mirror, images, order)
      decreases |rest| + moreToCome
    {
      var added := r.Keys - rest - visited;
      if rest == {} && added == {} {
        break;
      }
      var image: string;
      var takeAdded: bool := *;
      if added != {} && moreToCome > 0 && (takeAdded || rest == {}) {
        image :| image in added;
        moreToCome := moreToCome - 1;
      } else {
        image :| image in rest;
        rest := rest - {image};
      }
      FollowsOn(mirror, images, order, image);
      VisitKeepsOthers(mirror, r, image);
      r := VisitImage(mirror, r, image);
      order, visited := order + [image], visited + {image};
    }
  }

  /** Image `x` ends up under the name `k`: it keeps its name, or it has sources to move and
      the mirrored name is not empty. */
  predicate MirrorsTo(mirror: string -> string, images: ImageSet, x: string, k: string) {
    x in images && mirror(x) == k && (x == k || (k != "" && images[x] != {}))
  }

  /** No image moves to a name that is itself renamed. */
  ghost predicate NoChains(mirror: string -> string, images: ImageSet) {
    forall x :: x in images && MirrorsTo(mirror, images, x, mirror(x)) ==> mirror(mirror(x)) == mirror(x)
  }

  /** The sources of image `x` have arrived under the name `k`. */
  predicate Arrived(mirror: string -> string, images: ImageSet, visited: set<string>, x: string, k: string) {
    MirrorsTo(mirror, images, x, k) && (x == k || x in visited)
  }

  /** Image `k` is to be renamed and has not been visited. */
  predicate Pending(mirror: string -> string, images: ImageSet, visited: set<string>, k: string) {
    k in images && mirror(k) != k && k !in visited
  }

  ghost function ArrivedSources(mirror: string -> string, images: ImageSet, visited: set<string>, k: string): set<string> {
    set x, s | x in images && s in images[x] && Arrived(mirror, images, visited, x, k) :: s
  }

  ghost predicate SomeArrived(mirror: string -> string, images: ImageSet, visited: set<string>, k: string) {
    exists x :: Arrived(mirror, images, visited, x, k)
  }

  /** The map after visiting `visited`, key by key. */
  ghost predicate StandsAt(mirror: string -> string, images: ImageSet, visited: set<string>, r: ImageSet) {
    && (forall k :: k in r <==> Pending(mirror, images, visited, k) || SomeArrived(mirror, images, visited, k))
    && (forall k :: k in r && Pending(mirror, images, visited, k) ==> r[k] == images[k])
    && (forall k :: k in r && !Pending(mirror, images, visited, k) ==> r[k] == ArrivedSources(mirror, images, visited, k))
  }

  lemma StandsAtStart(mirror: string -> string, images: ImageSet)
    ensures StandsAt(mirror, images, {}, images)
  {
    forall k | k in images && mirror(k) == k
      ensures SomeArrived(mirror, images, {}, k) && images[k] == ArrivedSources(mirror, images, {}, k)
    {
      assert Arrived(mirror, images, {}, k, k);
    }
  }

  /** A name that something is mirrored to is mirrored to itself. */
  lemma TargetsAreFixed(mirror: string -> string, images: ImageSet, visited: set<string>, k: string)
    requires NoChains(mirror, images)
    ensures SomeArrived(mirror, images, visited, k) ==> mirror(k) == k
  {
    if x :| Arrived(mirror, images, visited, x, k) {
      assert MirrorsTo(mirror, images, x, mirror(x));
    }
  }

  /** Only what is mirrored to `k` changes what has arrived there. */
  lemma ArrivalsGrow(mirror: string -> string, images: ImageSet, visited: set<string>, image: string, k: string)
    requires Pending(mirror, images, visited, image)
    ensures k != mirror(image) || k == "" ==>
              && SomeArrived(mirror, images, visited + {image}, k) == SomeArrived(mirror, images, visited, k)
              && ArrivedSources(mirror, images, visited + {image}, k) == ArrivedSources(mirror, images, visited, k)
    ensures k == mirror(image) && k != "" ==>
              && SomeArrived(mirror, images, visited + {image}, k)
                 == (SomeArrived(mirror, images, visited, k) || images[image] != {})
              && ArrivedSources(mirror, images, visited + {image}, k)
                 == ArrivedSources(mirror, images, visited, k) + images[image]
  {
    var more := visited + {image};
    assert forall x :: Arrived(mirror, images, visited, x, k) ==> Arrived(mirror, images, more, x, k);
    assert forall x :: Arrived(mirror, images, more, x, k) ==>
             Arrived(mirror, images, visited, x, k) || (x == image && k == mirror(image) && k != "");
    if k == mirror(image) && k != "" && images[image] != {} {
      assert Arrived(mirror, images, more, image, k);
    }
  }

  lemma RenameStep(mirror: string -> string, images: ImageSet, visited: set<string>, r: ImageSet, image: string)
    requires NoChains(mirror, images) && StandsAt(mirror, images, visited, r)
    requires image in r && mirror(image) != image
    ensures StandsAt(mirror, images, visited + {image}, Visited(mirror, r, image))
  {
    var more, after, target := visited + {image}, Visited(mirror, r, image), mirror(image);
    TargetsAreFixed(mirror, images, visited, image);
    assert Pending(mirror, images, visited, image);
    forall k
      ensures k in after <==> Pending(mirror, images, more, k) || SomeArrived(mirror, images, more, k)
      ensures k in after && Pending(mirror, images, more, k) ==> after[k] == images[k]
      ensures k in after && !Pending(mirror, images, more, k) ==> after[k] == ArrivedSources(mirror, images, more, k)
    {
      ArrivalsGrow(mirror, images, visited, image, k);
    }
  }

  lemma FixedStep(mirror: string -> string, images: ImageSet, visited: set<string>, r: ImageSet, image: string)
    requires StandsAt(mirror, images, visited, r) && image in r && mirror(image) == image
    ensures StandsAt(mirror, images, visited + {image}, r)
  {
    var more := visited + {image};
    assert forall x, k :: Arrived(mirror, images, more, x, k) <==> Arrived(mirror, images, visited, x, k);
    assert forall k :: Pending(mirror, images, more, k) <==> Pending(mirror, images, visited, k);
    assert forall k :: ArrivedSources(mirror, images, more, k) == ArrivedSources(mirror, images, visited, k);
  }

  lemma {:induction false} WalkStandsAt(mirror: string -> string, images: ImageSet, order: seq<string>)
    requires NoChains(mirror, images) && Follows(mirror, images, order)
    ensures StandsAt(mirror, images, Elements(order), Walked(mirror, images, order))
    decreases |order|
  {
    if order == [] {
      StandsAtStart(mirror, images);
      assert Elements([]) == {};
    } else {
      var before, image := order[..|order| - 1], order[|order| - 1];
      WalkStandsAt(mirror, images, before);
      var r := Walked(mirror, images, before);
      assert Elements(order) == Elements(before) + {image} by { assert order == before + [image]; }
      if mirror(image) == image {
        FixedStep(mirror, images, Elements(before), r, image);
      } else {
        RenameStep(mirror, images, Elements(before), r, image);
      }
    }
  }

  /** The name `k` is the mirrored name of an image that keeps its name or has a source. */
  ghost predicate IsTarget(mirror: string -> string, images: ImageSet, k: string) {
    exists x :: MirrorsTo(mirror, images, x, k)
  }

  /** The union of the sources of all images that end up under the name `k`. */
  function TargetSources(mirror: string -> string, images: ImageSet, k: string): set<string> {
    set x, s | x in images && s in images[x] && MirrorsTo(mirror, images, x, k) :: s
  }

  lemma ArrivedInTheEnd(mirror: string -> string, images: ImageSet, visited: set<string>, k: string)
    requires images.Keys <= visited
    ensures !Pending(mirror, images, visited, k)
    ensures SomeArrived(mirror, images, visited, k) == IsTarget(mirror, images, k)
    ensures ArrivedSources(mirror, images, visited, k) == TargetSources(mirror, images, k)
  {
    assert forall x :: Arrived(mirror, images, visited, x, k) <==> MirrorsTo(mirror, images, x, k);
  }

  /** The result is the same for every order the range loop may take, and it is this: a
      name is in it exactly when it is the mirrored name of an image that keeps its name or
      has a source, and it holds the union of the sources of all images mirrored to it. */
  lemma MirroredExactly(mirror: string -> string, images: ImageSet, order: seq<string>, k: string)
    requires NoChains(mirror, images) && Allowed(mirror, images, order)
    ensures var r := Walked(mirror, images, order);
            && (k in r <==> IsTarget(mirror, images, k))
            && (k in r ==> r[k] == TargetSources(mirror, images, k))
  {
    WalkStandsAt(mirror, images, order);
    ArrivedInTheEnd(mirror, images, Elements(order), k);
  }

  lemma ArrivesExactlyWhen(mirror: string -> string, images: ImageSet, order: seq<string>, x: string)
    requires NoChains(mirror, images) && Allowed(mirror, images, order) && x in images && "" !in images
    ensures images[x] <= Sources(Walked(mirror, images, order), mirror(x)) <==> (mirror(x) == "" ==> images[x] == {})
  {
    var k := mirror(x);
    MirroredExactly(mirror, images, order, k);
    if k != "" && images[x] != {} {
      assert MirrorsTo(mirror, images, x, k);
    }
  }

  /** Conservation. Under every name there are only sources of images mirrored to it, and no
      source is lost on the way to its mirrored name if and only if no image that has one
      is mirrored to the empty name, which is never filled. */
  lemma MirroringConservesExactlyWhen(mirror: string -> string, images: ImageSet, order: seq<string>)
    requires NoChains(mirror, images) && Allowed(mirror, images, order) && "" !in images
    ensures forall k, s :: k in Walked(mirror, images, order) && s in Walked(mirror, images, order)[k] ==>
              exists x :: x in images && mirror(x) == k && s in images[x]
    ensures (forall x :: x in images ==> images[x] <= Sources(Walked(mirror, images, order), mirror(x))) <==>
            (forall x :: x in images && mirror(x) == "" ==> images[x] == {})
  {
    forall k, s | k in Walked(mirror, images, order) && s in Walked(mirror, images, order)[k]
      ensures exists x :: x in images && mirror(x) == k && s in images[x]
    {
      MirroredExactly(mirror, images, order, k);
    }
    forall x | x in images
      ensures images[x] <= Sources(Walked(mirror, images, order), mirror(x)) <==> (mirror(x) == "" ==> images[x] == {})
    {
      ArrivesExactlyWhen(mirror, images, order, x);
    }
  }

  /** All sources there are, under whatever name. */
  function AllSources(images: ImageSet): set<string> {
    set x, s | x in images && s in images[x] :: s
  }

  /** One turn loses no source unless it moves them to the empty name, and adds none. */
  lemma VisitConserves(mirror: string -> string, images: ImageSet, image: string)
    requires image in images
    ensures AllSources(Visited(mirror, images, image)) <= AllSources(images)
    ensures (mirror(image) == "" ==> image == "") ==> AllSources(Visited(mirror, images, image)) == AllSources(images)
  {
    var after, target := Visited(mirror, images, image), mirror(image);
    if target != image && target != "" {
      forall s | s in AllSources(images) ensures s in AllSources(after) {
        var x :| x in images && s in images[x];
        assert if x == image then s in after[target] else x in after && s in after[x];
      }
    }
  }

  /** For every renaming, chains included, and every order: no source appears, and if nothing
      that is visited is renamed to the empty name, no source is lost. */
  lemma {:induction false} AllSourcesConserved(mirror: string -> string, images: ImageSet, order: seq<string>)
    ensures AllSources(Walked(mirror, images, order)) <= AllSources(images)
    ensures (forall i :: 0 <= i < |order| && mirror(order[i]) == "" ==> order[i] == "") ==>
              AllSources(Walked(mirror, images, order)) == AllSources(images)
    decreases |order|
  {
    if order != [] {
      var before, image := order[..|order| - 1], order[|order| - 1];
      AllSourcesConserved(mirror, images, before);
      if image in Walked(mirror, images, before) {
        VisitConserves(mirror, Walked(mirror, images, before), image);
      }
    }
  }

  /** An image mirrored to the empty name loses its sources. */
  lemma EmptyNameLosesSources(image: string, source: string, mirror: string -> string)
    requires image != "" && mirror(image) == ""
    ensures var images: ImageSet := map[image := {source}];
            && Allowed(mirror, images, [image])
            && NoChains(mirror, images)
            && Walked(mirror, images, [image]) == map[]
  {
    var images: ImageSet := map[image := {source}];
    assert [image][..0] == [];
    assert source in images[image];
    assert Walked(mirror, images, [image]) == Visited(mirror, images, image);
  }

  ghost predicate SameForAllOrders(mirror: string -> string, images: ImageSet) {
    forall order, order' :: Allowed(mirror, images, order) && Allowed(mirror, images, order') ==>
      Walked(mirror, images, order) == Walked(mirror, images, order')
  }

  /** Keys not visited yet stay, with at least the sources they had. */
  lemma {:induction false} UnvisitedStay(mirror: string -> string, images: ImageSet, order: seq<string>)
    requires Distinct(order) && forall i :: 0 <= i < |order| ==> order[i] in images
    ensures Follows(mirror, images, order)
    ensures forall k :: k in images && k !in order ==>
              k in Walked(mirror, images, order) && images[k] <= Walked(mirror, images, order)[k]
    decreases |order|
  {
    if order != [] {
      var before, image := order[..|order| - 1], order[|order| - 1];
      UnvisitedStay(mirror, images, before);
      assert order == before + [image];
      assert image !in before;
      VisitKeepsOthers(mirror, Walked(mirror, images, before), image);
    }
  }

  /** Visited last, an image with sources leaves them under its mirrored name. */
  lemma VisitedLast(mirror: string -> string, images: ImageSet, others: set<string>, x: string) returns (order: seq<string>)
    requires others <= images.Keys - {x}
    requires x in images && MirrorsTo(mirror, images, x, mirror(x)) && mirror(x) != x
    ensures Follows(mirror, images, order) && mirror(x) in Walked(mirror, images, order)
    ensures forall k :: k in order <==> k in others || k == x
  {
    var before := InSomeOrder(others);
    forall i | 0 <= i < |before| ensures before[i] in images { assert before[i] in before; }
    UnvisitedStay(mirror, images, before);
    FollowsOn(mirror, images, before, x);
    order := before + [x];
  }

  /** A chain gives two orders with different results: the middle name is there when its
      predecessor comes last, and not there when it comes last itself. */
  lemma ChainShowsOrder(mirror: string -> string, images: ImageSet, x: string)
    requires x in images && MirrorsTo(mirror, images, x, mirror(x)) && mirror(mirror(x)) != mirror(x)
    ensures !SameForAllOrders(mirror, images)
  {
    var y := mirror(x);
    var a := VisitedLast(mirror, images, images.Keys - {x}, x);
    var b := VisitedLast(mirror, images, images.Keys - {x, y}, x);
    FollowsOn(mirror, images, b, y);
    assert forall k :: k in b + [y] <==> k in b || k == y;
    assert Allowed(mirror, images, a) && Allowed(mirror, images, b + [y]);
    assert y !in Walked(mirror, images, b + [y]);
  }

  lemma SameForBoth(mirror: string -> string, images: ImageSet, order: seq<string>, order': seq<string>)
    requires NoChains(mirror, images) && Allowed(mirror, images, order) && Allowed(mirror, images, order')
    ensures Walked(mirror, images, order) == Walked(mirror, images, order')
  {
    var r, r' := Walked(mirror, images, order), Walked(mirror, images, order');
    forall k ensures (k in r <==> k in r') && (k in r ==> r[k] == r'[k]) {
      MirroredExactly(mirror, images, order, k);
      MirroredExactly(mirror, images, order', k);
    }
  }

  /** Every order the range loop may take gives the same map if and only if no image with
      sources moves to a name that is itself renamed. */
  lemma SameForAllOrdersExactlyWhen(mirror: string -> string, images: ImageSet)
    ensures SameForAllOrders(mirror, images) <==> NoChains(mirror, images)
  {
    if NoChains(mirror, images) {
      forall order, order' | Allowed(mirror, images, order) && Allowed(mirror, images, order')
        ensures Walked(mirror, images, order) == Walked(mirror, images, order')
      {
        SameForBoth(mirror, images, order, order');
      }
    } else {
      var x :| x in images && MirrorsTo(mirror, images, x, mirror(x)) && mirror(mirror(x)) != mirror(x);
      ChainShowsOrder(mirror, images, x);
    }
  }

  /** For example, renaming a to b and b to c. */
  lemma ChainsDependOnOrder()
    ensures var mirror := (x: string) => if x == "a" then "b" else if x == "b" then "c" else x;
            !SameForAllOrders(mirror, map["a" := {"s"}, "b" := {"t"}])
  {
    var mirror := (x: string) => if x == "a" then "b" else if x == "b" then "c" else x;
    var images: ImageSet := map["a" := {"s"}, "b" := {"t"}];
    assert "a" != "b" && "b" != "c" && "b" != "" && "s" in images["a"];
    ChainShowsOrder(mirror, images, "a");
  }

  /** One line of the list of images with their sources. */
  ghost predicate IsLine(line: string, image: string, sources: set<string>) {
    exists sorted :: Sorted(sorted) && Distinct(sorted) && Elements(sorted) == sources
                  && line == image + " " + Join(sorted, ',')
  }

  lemma LineIsUnique(line: string, line': string, image: string, sources: set<string>)
    requires IsLine(line, image, sources) && IsLine(line', image, sources)
    ensures line == line'
  {
    var sorted :| Sorted(sorted) && Distinct(sorted) && Elements(sorted) == sources
                  && line == image + " " + Join(sorted, ',');
    var sorted' :| Sorted(sorted') && Distinct(sorted') && Elements(sorted') == sources
                  && line' == image + " " + Join(sorted', ',');
    SortedIsUnique(sorted, sorted');
  }

  method GetSourcesList(sources: set<string>) returns (r: string, sorted: seq<string>)
    ensures Sorted(sorted) && Distinct(sorted) && Elements(sorted) == sources
    ensures r == Join(sorted, ',')
  {
    sorted := SortStrings(sources);
    r := Join(sorted, ',');
  }

  /** The printed lists: exactly the images, sorted and without repeats, and for each of
      them one line with its sources in order. */
  ghost predicate ArePrinted(images: ImageSet, names: seq<string>, lines: seq<string>) {
    && Sorted(names) && Distinct(names) && Elements(names) == images.Keys
    && |lines| == |names|
    && forall i :: 0 <= i < |names| ==> names[i] in images && IsLine(lines[i], names[i], images[names[i]])
  }

  /** There is only one pair of lists for a map of images. */
  lemma PrintedListsAreUnique(images: ImageSet, names: seq<string>, lines: seq<string>,
                              names': seq<string>, lines': seq<string>)
    requires ArePrinted(images, names, lines) && ArePrinted(images, names', lines')
    ensures names == names' && lines == lines'
  {
    SortedIsUnique(names, names');
    forall i | 0 <= i < |names| ensures lines[i] == lines'[i] {
      LineIsUnique(lines[i], lines'[i], names[i], images[names[i]]);
    }
  }

  method GenerateImageAndSourceLists(images: ImageSet) returns (names: seq<string>, lines: seq<string>)
    ensures ArePrinted(images, names, lines)
  {
    names := SortStrings(images.Keys);
    lines := [];
    var i := 0;
    while i < |names|
      invariant 0 <= i <= |names| && |lines| == i
      invariant forall j :: 0 <= j < i ==> names[j] in images && IsLine(lines[j], names[j], images[names[j]])
    {
      assert names[i] in Elements(names);
      var list, sorted := GetSourcesList(images[names[i]]);
      var line := names[i] + " " + list;
      assert IsLine(line, names[i], images[names[i]]);
      lines := lines + [line];
      i := i + 1;
    }
  }
}
