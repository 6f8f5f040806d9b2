/** Recording the identity of the images a release is built from, and checking later
    that no tag has moved. */
module ImageDigests {
  import opened Text
  import opened Names

  datatype Image = Image(tag: string, id: string)

  type Manifest = map<string, Image>

  /** The image each tag names now; an unknown tag has no identity. */
  type Registry = map<string, string>

  function Identity(registry: Registry, tag: string): string {
    if tag in registry then registry[tag] else ""
  }

  datatype Finding =
    | NotAPair(pair: string)
    | NoImage(tag: string)
    | Missing(name: string)
    | Changed(name: string, now: string)

  // ----- record

  /** The position of the first `=`, where a pair is split. */
  function FirstEquals(pair: string): (i: nat)
    requires '=' in pair
    ensures i < |pair| && pair[i] == '=' && '=' !in pair[..i]
  {
    if pair[0] == '=' then 0
    else
      var i := FirstEquals(pair[1..]);
      assert pair[..i + 1] == [pair[0]] + pair[1..][..i];
      i + 1
  }

  function NameOf(pair: string): string
    requires '=' in pair
  {
    pair[..FirstEquals(pair)]
  }

  function TagOf(pair: string): string
    requires '=' in pair
  {
    pair[FirstEquals(pair) + 1..]
  }

  predicate Resolves(registry: Registry, pair: string) {
    '=' in pair && Identity(registry, TagOf(pair)) != ""
  }

  /** The pair `name=tag` is split at its first `=`, and resolves if the tag names an image. */
  lemma PairSplits(registry: Registry, name: string, tag: string)
    requires '=' !in name
    ensures var pair := name + "=" + tag;
      && '=' in pair && NameOf(pair) == name && TagOf(pair) == tag
      && (Resolves(registry, pair) <==> tag in registry && registry[tag] != "")
  {
    FirstEqualsIn(name, tag);
  }

  lemma {:induction false} FirstEqualsIn(name: string, tag: string)
    requires '=' !in name
    ensures '=' in name + "=" + tag && FirstEquals(name + "=" + tag) == |name|
  {
    var pair := name + "=" + tag;
    assert pair[|name|] == '=';
    if name != [] {
      assert pair[1..] == name[1..] + "=" + tag;
      FirstEqualsIn(name[1..], tag);
    }
  }

  /** What is wrong with one pair. */
  function PairFindings(registry: Registry, pair: string): seq<Finding> {
    if '=' !in pair then [NotAPair(pair)]
    else if Identity(registry, TagOf(pair)) == "" then [NoImage(TagOf(pair))]
    else []
  }

  function AllPairFindings(registry: Registry, pairs: seq<string>): seq<Finding> {
    if pairs == [] then []
    else AllPairFindings(registry, pairs[..|pairs| - 1]) + PairFindings(registry, pairs[|pairs| - 1])
  }

  /** A problem is reported exactly for a text that is no pair, and for a tag in a pair that
      names no image. */
  lemma {:induction false} PairFindingsFrom(registry: Registry, pairs: seq<string>, f: Finding)
    ensures f in AllPairFindings(registry, pairs) <==>
      match f
      case NotAPair(text) => text in pairs && '=' !in text
      case NoImage(tag) => (tag !in registry || registry[tag] == "") && HasTag(pairs, tag)
      case _ => false
  {
    hide TagOf;
    if pairs != [] {
      var n := |pairs| - 1;
      PairFindingsFrom(registry, pairs[..n], f);
      assert forall pair :: pair in pairs <==> pair in pairs[..n] || pair == pairs[n];
    }
  }

  ghost predicate HasTag(pairs: seq<string>, tag: string) {
    exists pair :: pair in pairs && '=' in pair && TagOf(pair) == tag
  }

  function ImageOf(registry: Registry, pair: string): Image
    requires '=' in pair
  {
    Image(TagOf(pair), Identity(registry, TagOf(pair)))
  }

  /** The images of the pairs that resolve; a later pair replaces an earlier one of its name. */
  function Images(registry: Registry, pairs: seq<string>): Manifest {
    if pairs == [] then map[]
    else
      var earlier := Images(registry, pairs[..|pairs| - 1]);
      var pair := pairs[|pairs| - 1];
      if Resolves(registry, pair) then earlier[NameOf(pair) := ImageOf(registry, pair)] else earlier
  }

  /** `pairs[i]` is the last pair of its name that resolves. */
  ghost predicate LastOfItsName(registry: Registry, pairs: seq<string>, i: nat) {
    && i < |pairs| && Resolves(registry, pairs[i])
    && forall j :: i < j < |pairs| && Resolves(registry, pairs[j]) ==> NameOf(pairs[j]) != NameOf(pairs[i])
  }

  /** The record of `name` is the image of the last pair that resolves for it. */
  ghost predicate RecordedFrom(registry: Registry, pairs: seq<string>, name: string, image: Image, i: nat) {
    LastOfItsName(registry, pairs, i) && NameOf(pairs[i]) == name && image == ImageOf(registry, pairs[i])
  }

  /** Every name of a resolving pair is recorded, with the image of its last such pair. */
  lemma {:induction false} ImagesAreTheLast(registry: Registry, pairs: seq<string>)
    ensures forall i :: 0 <= i < |pairs| && Resolves(registry, pairs[i]) ==> NameOf(pairs[i]) in Images(registry, pairs)
    ensures forall name :: name in Images(registry, pairs) ==>
      exists i: nat :: RecordedFrom(registry, pairs, name, Images(registry, pairs)[name], i)
  {
    if pairs != [] {
      var n := |pairs| - 1;
      ImagesAreTheLast(registry, pairs[..n]);
      forall name | name in Images(registry, pairs)
        ensures exists i: nat :: RecordedFrom(registry, pairs, name, Images(registry, pairs)[name], i)
      {
        if Resolves(registry, pairs[n]) && NameOf(pairs[n]) == name {
          assert RecordedFrom(registry, pairs, name, Images(registry, pairs)[name], n);
        } else {
          var i: nat :| RecordedFrom(registry, pairs[..n], name, Images(registry, pairs[..n])[name], i);
          StillRecordedFrom(registry, pairs, name, Images(registry, pairs)[name], i);
        }
      }
    }
  }

  lemma StillRecordedFrom(registry: Registry, pairs: seq<string>, name: string, image: Image, i: nat)
    requires pairs != [] && RecordedFrom(registry, pairs[..|pairs| - 1], name, image, i)
    requires !(Resolves(registry, pairs[|pairs| - 1]) && NameOf(pairs[|pairs| - 1]) == name)
    ensures RecordedFrom(registry, pairs, name, image, i)
  {
    var earlier := pairs[..|pairs| - 1];
    assert pairs[i] == earlier[i];
    forall j | i < j < |pairs| && Resolves(registry, pairs[j]) ensures NameOf(pairs[j]) != NameOf(pairs[i]) {
      if j < |earlier| { assert earlier[j] == pairs[j]; }
    }
  }

  lemma NoPairs(registry: Registry)
    ensures Images(registry, []) == map[] && AllPairFindings(registry, []) == []
  {
  }

  lemma LastPair(registry: Registry, pairs: seq<string>)
    requires pairs != []
    ensures var pair := pairs[|pairs| - 1];
      var before := pairs[..|pairs| - 1];
      var images := Images(registry, before);
      && AllPairFindings(registry, pairs) == AllPairFindings(registry, before) + PairFindings(registry, pair)
      && Images(registry, pairs) ==
           if Resolves(registry, pair) then images[NameOf(pair) := ImageOf(registry, pair)] else images
  {
  }

  method Record(registry: Registry, pairs: seq<string>) returns (manifest: Option<Manifest>, findings: seq<Finding>)
    ensures findings == AllPairFindings(registry, pairs)
    ensures manifest.Some? <==> pairs != [] && forall i :: 0 <= i < |pairs| ==> Resolves(registry, pairs[i])
    ensures manifest.Some? ==> manifest.value == Images(registry, pairs) != map[]
  {
    hide NameOf, TagOf, FirstEquals, Identity, RecordedFrom;
    ImagesAreTheLast(registry, pairs);
    hide Images, AllPairFindings, LastOfItsName;
    NoPairs(registry);
    var images: Manifest := map[];
    findings := [];
    for n := 0 to |pairs|
      invariant findings == AllPairFindings(registry, pairs[..n])
      invariant findings == [] <==> forall i :: 0 <= i < n ==> Resolves(registry, pairs[i])
      invariant images == Images(registry, pairs[..n])
    {
      var pair := pairs[n];
      assert pairs[..n + 1][..n] == pairs[..n];
      LastPair(registry, pairs[..n + 1]);
      if '=' !in pair {
        findings := findings + [NotAPair(pair)];
        continue;
      }
      var name, tag := NameOf(pair), TagOf(pair);
      var identity := Identity(registry, tag);
      if identity == "" {
        findings := findings + [NoImage(tag)];
        continue;
      }
      images := images[name := Image(tag, identity)];
    }
    assert pairs[..|pairs|] == pairs;
    if findings != [] {
      return None, findings;
    }
    assert pairs != [] ==> NameOf(pairs[0]) in images;
    if images == map[] {
      return None, findings;
    }
    manifest := Some(images);
  }

  // ----- verify

  /** What a name's recorded image has become. */
  function NameFindings(recorded: Manifest, current: Registry, name: string): seq<Finding>
    requires name in recorded
  {
    var now := Identity(current, name);
    if now == "" then [Missing(name)]
    else if now != recorded[name].id then [Changed(name, now)]
    else []
  }

  function AllNameFindings(recorded: Manifest, current: Registry, names: seq<string>): seq<Finding>
    requires forall i :: 0 <= i < |names| ==> names[i] in recorded
  {
    if names == [] then []
    else
      AllNameFindings(recorded, current, names[..|names| - 1])
      + NameFindings(recorded, current, names[|names| - 1])
  }

  /** A name is reported exactly if its image is gone, or has another identity now. */
  lemma {:induction false} NameFindingsFrom(recorded: Manifest, current: Registry, names: seq<string>, f: Finding)
    requires forall i :: 0 <= i < |names| ==> names[i] in recorded
    ensures f in AllNameFindings(recorded, current, names) <==>
      match f
      case Missing(name) => name in names && (name !in current || current[name] == "")
      case Changed(name, now) =>
        && name in names && name in current && current[name] == now
        && now != "" && now != recorded[name].id
      case _ => false
  {
    if names != [] {
      var n := |names| - 1;
      NameFindingsFrom(recorded, current, names[..n], f);
      assert forall name :: name in names <==> name in names[..n] || name == names[n];
    }
  }

  /** The name a finding of the verification is about. */
  function About(f: Finding): string {
    match f
    case Missing(name) => name
    case Changed(name, _) => name
    case _ => ""
  }

  ghost predicate StrictlyAscending(names: seq<string>) {
    forall i, j :: 0 <= i < j < |names| ==> Le(names[i], names[j]) && names[i] != names[j]
  }

  function Subjects(findings: seq<Finding>): seq<string> {
    seq(|findings|, i requires 0 <= i < |findings| => About(findings[i]))
  }

  /** At most one finding for each name, in the order of the names. */
  lemma {:induction false} NameFindingsAscend(recorded: Manifest, current: Registry, names: seq<string>)
    requires forall i :: 0 <= i < |names| ==> names[i] in recorded
    requires StrictlyAscending(names)
    ensures StrictlyAscending(Subjects(AllNameFindings(recorded, current, names)))
    ensures forall name :: name in Subjects(AllNameFindings(recorded, current, names)) ==> name in names
  {
    hide Le;
    if names != [] {
      var n := |names| - 1;
      var earlier := Subjects(AllNameFindings(recorded, current, names[..n]));
      var last := NameFindings(recorded, current, names[n]);
      NameFindingsAscend(recorded, current, names[..n]);
      forall i | 0 <= i < |earlier| ensures Le(earlier[i], names[n]) && earlier[i] != names[n] {
        assert earlier[i] in names[..n];
        var k :| 0 <= k < n && names[k] == earlier[i];
      }
      assert last == [] || (|last| == 1 && About(last[0]) == names[n]);
      assert Subjects(AllNameFindings(recorded, current, names)) == earlier + if last == [] then [] else [names[n]];
    }
  }

  /** The identity each name has now: read from the live registry, or from another
      recorded reading. */
  function Current(recorded: Manifest, registry: Registry, reading: Option<Manifest>): Registry {
    match reading
    case Some(other) => map name | name in other :: other[name].id
    case None => map name | name in recorded :: Identity(registry, recorded[name].tag)
  }

  predicate Unchanged(recorded: Manifest, current: Registry, name: string)
    requires name in recorded
  {
    Identity(current, name) == recorded[name].id && recorded[name].id != ""
  }

  /** The image has the identity it was recorded with: its tag in the live registry, or its
      name in another recorded reading. */
  predicate StillThere(image: Image, name: string, registry: Registry, reading: Option<Manifest>) {
    && image.id != ""
    && match reading
       case None => image.tag in registry && registry[image.tag] == image.id
       case Some(other) => name in other && other[name].id == image.id
  }

  lemma NothingMoved(recorded: Manifest, registry: Registry, reading: Option<Manifest>, name: string)
    requires name in recorded
    ensures Unchanged(recorded, Current(recorded, registry, reading), name)
       <==> StillThere(recorded[name], name, registry, reading)
  {
  }

  /** Verification passes exactly if something is recorded and every recorded name still has
      its identity; otherwise it lists the missing and the changed names in ascending order. */
  method Verify(recorded: Manifest, registry: Registry, reading: Option<Manifest>)
    returns (ok: bool, findings: seq<Finding>)
    ensures var current := Current(recorded, registry, reading);
      exists names :: SortedNames(names, recorded.Keys) && findings == AllNameFindings(recorded, current, names)
    ensures ok <==>
      && recorded != map[]
      && forall name :: name in recorded ==> StillThere(recorded[name], name, registry, reading)
  {
    var current := Current(recorded, registry, reading);
    hide Current;
    var names := Sort(recorded.Keys);
    findings := [];
    for n := 0 to |names|
      invariant findings == AllNameFindings(recorded, current, names[..n])
      invariant findings == [] <==> forall i :: 0 <= i < n ==> Unchanged(recorded, current, names[i])
    {
      assert names[n] in names;
      assert names[..n + 1][..n] == names[..n];
      findings := findings + NameFindings(recorded, current, names[n]);
    }
    assert names[..|names|] == names;
    assert forall name :: name in recorded ==> name in names;
    forall name | name in recorded
      ensures Unchanged(recorded, current, name) <==> StillThere(recorded[name], name, registry, reading)
    {
      NothingMoved(recorded, registry, reading, name);
    }
    hide Unchanged, StillThere;
    ok := recorded != map[] && findings == [];
  }

  /** The evidence chain: a manifest recorded now passes against a later registry exactly
      if no recorded tag has lost or changed its image in between. */
  method RecordThenVerify(before: Registry, pairs: seq<string>, later: Registry) returns (recorded: bool, ok: bool)
    ensures recorded <==> pairs != [] && forall i :: 0 <= i < |pairs| ==> Resolves(before, pairs[i])
    ensures ok <==> recorded && forall i: nat :: LastOfItsName(before, pairs, i) ==>
      Identity(later, TagOf(pairs[i])) == Identity(before, TagOf(pairs[i]))
  {
    hide SortedNames, AllNameFindings, AllPairFindings, Images, Current, NameOf, TagOf;
    var manifest, findings := Record(before, pairs);
    recorded := manifest.Some?;
    if !recorded {
      return false, false;
    }
    ok, findings := Verify(manifest.value, later, None);
    ImagesAreTheLast(before, pairs);
    forall i: nat | LastOfItsName(before, pairs, i)
      ensures NameOf(pairs[i]) in manifest.value && manifest.value[NameOf(pairs[i])] == ImageOf(before, pairs[i])
    {
      var name := NameOf(pairs[i]);
      var k: nat :| RecordedFrom(before, pairs, name, manifest.value[name], k);
      assert k == i;
    }
  }
}
