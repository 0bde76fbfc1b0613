/**
 * The "Generate Animations By Sprite Name" command of the Animancer editor
 * utilities: the sprites of one texture are grouped by their name with
 * spaces, digits and hyphens removed, and each group becomes one sprite
 * animation whose frame rate is the group size, so that its keyframe times
 * all fall within the first second.
 *
 * The host's asset database is abstracted away: the loaded assets arrive as
 * a sequence (already sorted by the host's name comparison), the texture's
 * directory and file name as strings, and each created clip is returned as
 * a value instead of being written to disk.
 */
module SpriteAnimations {
  import opened UnityHost

  /** The characters the pattern `[ \d-]` removes: space, the ASCII digits and '-'. */
  const BaseNameStripped: set<char> :=
    {' ', '-', '0', '1', '2', '3', '4', '5', '6', '7', '8', '9'}

  /** The texture's file name loses only its spaces. */
  const FileNameStripped: set<char> := {' '}

  /** `s` with every character of `drop` removed. */
  function Without(s: string, drop: set<char>): (r: string)
    ensures |r| <= |s|
    ensures forall i :: 0 <= i < |r| ==> r[i] !in drop
  {
    if s == [] then []
    else
      var rest := Without(s[1..], drop);
      if s[0] in drop then rest else [s[0]] + rest
  }

  /** Every character that is not dropped is kept as often as it occurs. */
  lemma {:induction false} WithoutKeepsOthers(s: string, drop: set<char>)
    ensures forall c :: c !in drop ==> multiset(Without(s, drop))[c] == multiset(s)[c]
  {
    if s != [] {
      assert s == [s[0]] + s[1..];
      WithoutKeepsOthers(s[1..], drop);
    }
  }

  /** Removing characters distributes over concatenation, so the kept characters keep their order. */
  lemma {:induction false} WithoutConcat(a: string, b: string, drop: set<char>)
    ensures Without(a + b, drop) == Without(a, drop) + Without(b, drop)
  {
    if a != [] {
      assert (a + b)[1..] == a[1..] + b;
      WithoutConcat(a[1..], b, drop);
    } else {
      assert a + b == b;
    }
  }

  /** A string holding none of the dropped characters is left as it is. */
  lemma {:induction false} WithoutKeepsClean(s: string, drop: set<char>)
    requires forall i :: 0 <= i < |s| ==> s[i] !in drop
    ensures Without(s, drop) == s
  {
    if s != [] {
      WithoutKeepsClean(s[1..], drop);
    }
  }

  /** Removing the same characters twice changes nothing more. */
  lemma WithoutIdempotent(s: string, drop: set<char>)
    ensures Without(Without(s, drop), drop) == Without(s, drop)
  {
    WithoutKeepsClean(Without(s, drop), drop);
  }

  /** `Regex.Replace(sprite.name, @"[ \d-]", "")`: the key a sprite is grouped under. */
  function BaseName(spriteName: string): (r: string)
    ensures forall i :: 0 <= i < |r| ==> r[i] != ' ' && r[i] != '-' && !('0' <= r[i] <= '9')
  {
    Without(spriteName, BaseNameStripped)
  }

  /* ---------------------------------------------------------------- grouping */

  /** The sprites among the assets, in their order (`assets[i] as Sprite` skips the rest). */
  function SpritesOf(assets: seq<Asset>): (r: seq<Sprite>)
    ensures |r| <= |assets|
  {
    if assets == [] then []
    else
      var init := SpritesOf(assets[..|assets| - 1]);
      match assets[|assets| - 1]
      case SpriteAsset(s) => init + [s]
      case OtherAsset(_, _) => init
  }

  /** The sprites kept are exactly the sprite assets. */
  lemma {:induction false} SpritesOfMembers(assets: seq<Asset>)
    ensures forall s :: s in SpritesOf(assets) <==> SpriteAsset(s) in assets
  {
    if assets != [] {
      assert assets == assets[..|assets| - 1] + [assets[|assets| - 1]];
      SpritesOfMembers(assets[..|assets| - 1]);
    }
  }

  lemma {:induction false} SpritesOfConcat(a: seq<Asset>, b: seq<Asset>)
    ensures SpritesOf(a + b) == SpritesOf(a) + SpritesOf(b)
  {
    if b == [] {
      assert a + b == a;
    } else {
      assert (a + b)[..|a + b| - 1] == a + b[..|b| - 1];
      SpritesOfConcat(a, b[..|b| - 1]);
    }
  }

  /** An asset that is not a sprite contributes nothing, wherever it stands. */
  lemma OtherAssetsAreSkipped(a: seq<Asset>, other: Asset, b: seq<Asset>)
    requires other.OtherAsset?
    ensures SpritesOf(a + [other] + b) == SpritesOf(a + b)
  {
    SpritesOfConcat(a + [other], b);
    SpritesOfConcat(a, [other]);
    SpritesOfConcat(a, b);
    assert [other][..0] == [];
  }

  /** The sprites whose base name is `key`, in their order. */
  function GroupOf(sprites: seq<Sprite>, key: string): (g: seq<Sprite>)
    ensures |g| <= |sprites|
  {
    if sprites == [] then []
    else
      var last := sprites[|sprites| - 1];
      var init := GroupOf(sprites[..|sprites| - 1], key);
      if BaseName(last.name) == key then init + [last] else init
  }

  /** A group holds exactly the sprites whose base name is its key. */
  lemma {:induction false} GroupOfMembers(sprites: seq<Sprite>, key: string)
    ensures forall s :: s in GroupOf(sprites, key) <==> s in sprites && BaseName(s.name) == key
  {
    if sprites != [] {
      assert sprites == sprites[..|sprites| - 1] + [sprites[|sprites| - 1]];
      GroupOfMembers(sprites[..|sprites| - 1], key);
    }
  }

  /** Grouping splits over concatenation: sprites of an earlier part come before those of a later part. */
  lemma {:induction false} GroupOfConcat(a: seq<Sprite>, b: seq<Sprite>, key: string)
    ensures GroupOf(a + b, key) == GroupOf(a, key) + GroupOf(b, key)
  {
    if b == [] {
      assert a + b == a;
    } else {
      var init, last := b[..|b| - 1], b[|b| - 1];
      assert (a + b)[..|a + b| - 1] == a + init;
      GroupOfConcat(a, init, key);
    }
  }

  /** Every base name that occurs among the sprites. */
  function KeysOf(sprites: seq<Sprite>): set<string> {
    set s | s in sprites :: BaseName(s.name)
  }

  /** `nameToSprites` after one more sprite: appended to the list under its base name, created if missing. */
  function AddSprite(groups: map<string, seq<Sprite>>, s: Sprite): map<string, seq<Sprite>> {
    var k := BaseName(s.name);
    groups[k := (if k in groups then groups[k] else []) + [s]]
  }

  /** The dictionary built from the sprites, one sprite at a time in their order. */
  function Grouping(sprites: seq<Sprite>): map<string, seq<Sprite>> {
    if sprites == [] then map[]
    else AddSprite(Grouping(sprites[..|sprites| - 1]), sprites[|sprites| - 1])
  }

  lemma GroupingSnoc(sprites: seq<Sprite>, s: Sprite)
    ensures Grouping(sprites + [s]) == AddSprite(Grouping(sprites), s)
  {
    assert (sprites + [s])[..|sprites|] == sprites;
  }

  /** A key no sprite has gets an empty group. */
  lemma GroupOfMissingKey(sprites: seq<Sprite>, key: string)
    requires key !in KeysOf(sprites)
    ensures GroupOf(sprites, key) == []
  {
    GroupOfMembers(sprites, key);
  }

  lemma KeysSnoc(sprites: seq<Sprite>, s: Sprite)
    ensures KeysOf(sprites + [s]) == KeysOf(sprites) + {BaseName(s.name)}
  {
    var sprites' := sprites + [s];
    forall key | key in KeysOf(sprites')
      ensures key in KeysOf(sprites) + {BaseName(s.name)}
    {
      var x :| x in sprites' && BaseName(x.name) == key;
      if x != s {
        assert x in sprites;
      }
    }
    assert s in sprites';
  }

  /**
   * The dictionary holds exactly one entry per base name among the sprites,
   * and the entry for a key lists the sprites with that base name in input
   * order: it partitions the sprites by base name.
   */
  lemma {:induction false} GroupingIsPartition(sprites: seq<Sprite>)
    ensures Grouping(sprites).Keys == KeysOf(sprites)
    ensures forall k :: k in Grouping(sprites) ==> Grouping(sprites)[k] == GroupOf(sprites, k)
  {
    if sprites != [] {
      var init, last := sprites[..|sprites| - 1], sprites[|sprites| - 1];
      assert sprites == init + [last];
      GroupingIsPartition(init);
      KeysSnoc(init, last);
      forall k | k in Grouping(sprites)
        ensures Grouping(sprites)[k] == GroupOf(sprites, k)
      {
        if k !in Grouping(init) {
          GroupOfMissingKey(init, k);
        }
      }
    }
  }

  /** Every group of the grouping holds at least one sprite. */
  lemma {:induction false} GroupsAreNonEmpty(sprites: seq<Sprite>)
    ensures forall k :: k in Grouping(sprites) ==> |Grouping(sprites)[k]| > 0
  {
    if sprites != [] {
      GroupsAreNonEmpty(sprites[..|sprites| - 1]);
    }
  }

  /** No key is listed twice. */
  predicate Distinct(keys: seq<string>) {
    forall i, j :: 0 <= i < j < |keys| ==> keys[i] != keys[j]
  }

  /** The lists of `groups` under `keys`, concatenated in that order (one enumeration of the dictionary). */
  function Flatten(groups: map<string, seq<Sprite>>, keys: seq<string>): seq<Sprite>
    requires forall k :: k in keys ==> k in groups
  {
    if keys == [] then []
    else Flatten(groups, keys[..|keys| - 1]) + groups[keys[|keys| - 1]]
  }

  /** The groups of `keys`, computed straight from the sprites. */
  function ConcatGroups(sprites: seq<Sprite>, keys: seq<string>): seq<Sprite> {
    if keys == [] then []
    else ConcatGroups(sprites, keys[..|keys| - 1]) + GroupOf(sprites, keys[|keys| - 1])
  }

  lemma {:induction false} ConcatGroupsOfNone(keys: seq<string>)
    ensures ConcatGroups([], keys) == []
  {
    if keys != [] {
      ConcatGroupsOfNone(keys[..|keys| - 1]);
    }
  }

  /** One more sprite adds one copy of it to the concatenation when its key is listed once. */
  lemma {:induction false} ConcatGroupsSnoc(sprites: seq<Sprite>, s: Sprite, keys: seq<string>)
    requires Distinct(keys)
    ensures multiset(ConcatGroups(sprites + [s], keys)) ==
      multiset(ConcatGroups(sprites, keys)) + (if BaseName(s.name) in keys then multiset{s} else multiset{})
  {
    var sprites' := sprites + [s];
    if keys != [] {
      var init, last := keys[..|keys| - 1], keys[|keys| - 1];
      assert Distinct(init);
      assert keys == init + [last];
      ConcatGroupsSnoc(sprites, s, init);
      assert sprites'[..|sprites'| - 1] == sprites;
      assert GroupOf(sprites', last) ==
        GroupOf(sprites, last) + (if BaseName(s.name) == last then [s] else []);
      assert BaseName(s.name) == last ==> BaseName(s.name) !in init;
    }
  }

  /**
   * Listing every base name once, the groups together hold each sprite as
   * often as the input does: no sprite is lost or duplicated.
   */
  lemma {:induction false} ConcatGroupsIsPermutation(sprites: seq<Sprite>, keys: seq<string>)
    requires Distinct(keys)
    requires KeysOf(sprites) <= set k | k in keys
    ensures multiset(ConcatGroups(sprites, keys)) == multiset(sprites)
  {
    if sprites == [] {
      ConcatGroupsOfNone(keys);
    } else {
      var init, last := sprites[..|sprites| - 1], sprites[|sprites| - 1];
      assert sprites == init + [last];
      KeysSnoc(init, last);
      ConcatGroupsIsPermutation(init, keys);
      ConcatGroupsSnoc(init, last, keys);
    }
  }

  lemma {:induction false} FlattenGrouping(sprites: seq<Sprite>, keys: seq<string>)
    requires forall k :: k in keys ==> k in Grouping(sprites)
    ensures Flatten(Grouping(sprites), keys) == ConcatGroups(sprites, keys)
  {
    GroupingIsPartition(sprites);
    if keys != [] {
      FlattenGrouping(sprites, keys[..|keys| - 1]);
    }
  }

  /**
   * Whatever order the dictionary is enumerated in, the lists it holds are
   * together a permutation of the sprites, so the group sizes add up to the
   * number of sprites.
   */
  lemma GroupsPartitionSprites(sprites: seq<Sprite>, keys: seq<string>)
    requires Distinct(keys)
    requires forall k :: k in keys <==> k in Grouping(sprites)
    ensures multiset(Flatten(Grouping(sprites), keys)) == multiset(sprites)
    ensures |Flatten(Grouping(sprites), keys)| == |sprites|
  {
    GroupingIsPartition(sprites);
    FlattenGrouping(sprites, keys);
    ConcatGroupsIsPermutation(sprites, keys);
    assert |multiset(Flatten(Grouping(sprites), keys))| == |multiset(sprites)|;
  }

  /**
   * Each sprite among the assets is in the group of its own base name, and
   * a group holds nothing but sprites of the assets with that base name; so
   * each sprite is in exactly one group.
   */
  lemma EverySpriteInItsGroup(assets: seq<Asset>)
    ensures var groups := Grouping(SpritesOf(assets));
      forall s :: SpriteAsset(s) in assets ==> BaseName(s.name) in groups && s in groups[BaseName(s.name)]
    ensures var groups := Grouping(SpritesOf(assets));
      forall k, s :: k in groups && s in groups[k] ==> SpriteAsset(s) in assets && BaseName(s.name) == k
  {
    var sprites := SpritesOf(assets);
    GroupingIsPartition(sprites);
    SpritesOfMembers(assets);
    forall k | true
      ensures forall s :: s in GroupOf(sprites, k) <==> s in sprites && BaseName(s.name) == k
    {
      GroupOfMembers(sprites, k);
    }
  }

  /** Extending the prefix of the assets by one asset adds that asset's sprite, if any. */
  lemma SpritesOfSnoc(assets: seq<Asset>, i: nat)
    requires i < |assets|
    ensures SpritesOf(assets[..i + 1]) ==
      if assets[i].SpriteAsset? then SpritesOf(assets[..i]) + [assets[i].sprite] else SpritesOf(assets[..i])
  {
    assert assets[..i + 1][..i] == assets[..i];
  }

  /**
   * The loop of `GenerateAnimationsBySpriteName` that fills
   * `nameToSprites`: each sprite is appended to the list under its base
   * name, and a list is created the first time a base name is seen.
   */
  method GroupBySpriteName(assets: seq<Asset>) returns (groups: map<string, seq<Sprite>>)
    ensures groups == Grouping(SpritesOf(assets))
    ensures groups.Keys == KeysOf(SpritesOf(assets))
    ensures forall k :: k in groups ==> groups[k] == GroupOf(SpritesOf(assets), k)
    ensures forall k :: k in groups ==> |groups[k]| > 0
  {
    groups := map[];
    ghost var seen: seq<Sprite> := [];
    var i := 0;
    while i < |assets|
      invariant 0 <= i <= |assets|
      invariant seen == SpritesOf(assets[..i])
      invariant groups == Grouping(seen)
    {
      SpritesOfSnoc(assets, i);
      if assets[i].SpriteAsset? {
        var sprite := assets[i].sprite;
        var baseName := BaseName(sprite.name);
        // TryGetValue, or a new list added under the base name
        var sprites := if baseName in groups then groups[baseName] else [];
        // the list is shared with the dictionary, so appending to it updates the entry
        groups := groups[baseName := sprites + [sprite]];
        GroupingSnoc(seen, sprite);
        seen := seen + [sprite];
      }
      i := i + 1;
    }
    assert assets[..i] == assets;
    GroupingIsPartition(seen);
    GroupsAreNonEmpty(seen);
  }

  /* ------------------------------------------------------------ output paths */

  /** `pathPrefix`: the texture's directory, '/', its file name without spaces, '-'. */
  function PathPrefix(directory: string, fileName: string): string {
    directory + "/" + Without(fileName, FileNameStripped) + "-"
  }

  /**
   * The animation name for a group key: the key with the texture's name
   * removed from its front when it starts with it (an ordinal prefix test).
   */
  function TrimmedKey(name: string, key: string): (k: string)
    ensures name <= key ==> name + k == key
    ensures !(name <= key) ==> k == key
  {
    if name <= key then key[|name|..] else key
  }

  /** The asset path of the clip generated for the group `key`. */
  function AnimationPath(directory: string, fileName: string, key: string): string {
    PathPrefix(directory, fileName) + TrimmedKey(Without(fileName, FileNameStripped), key) + ".anim"
  }

  /**
   * The path starts with the prefix, ends in ".anim", and what lies between
   * is the trimmed key.
   */
  lemma AnimationPathShape(directory: string, fileName: string, key: string)
    ensures var path, prefix := AnimationPath(directory, fileName, key), PathPrefix(directory, fileName);
      && prefix <= path
      && |path| == |prefix| + |TrimmedKey(Without(fileName, FileNameStripped), key)| + 5
      && path[|prefix|..|path| - 5] == TrimmedKey(Without(fileName, FileNameStripped), key)
      && path[|path| - 5..] == ".anim"
  {
  }

  /** Two groups of one texture get the same path exactly when their trimmed keys are equal. */
  lemma AnimationPathsEqual(directory: string, fileName: string, key1: string, key2: string)
    ensures var name := Without(fileName, FileNameStripped);
      AnimationPath(directory, fileName, key1) == AnimationPath(directory, fileName, key2)
      <==> TrimmedKey(name, key1) == TrimmedKey(name, key2)
  {
    var name := Without(fileName, FileNameStripped);
    var p1, p2 := AnimationPath(directory, fileName, key1), AnimationPath(directory, fileName, key2);
    AnimationPathShape(directory, fileName, key1);
    AnimationPathShape(directory, fileName, key2);
    if p1 == p2 {
      assert p1[|PathPrefix(directory, fileName)|..|p1| - 5] == p2[|PathPrefix(directory, fileName)|..|p2| - 5];
    }
  }

  /**
   * Different groups can therefore share a path: with the texture "Hero",
   * the keys "HeroWalk" (from a sprite "Hero Walk 1") and "Walk" (from
   * "Walk 1") both trim to "Walk", so both clips go to the same
   * "…/Hero-Walk.anim" and the one created second replaces the other.
   */
  lemma AnimationPathsCanCollide()
    ensures TrimmedKey("Hero", "HeroWalk") == TrimmedKey("Hero", "Walk") == "Walk"
  {
    assert "Hero" + "Walk" == "HeroWalk";
    assert "Hero"[3] != "Walk"[3];
  }

  /* --------------------------------------------------------------- keyframes */

  /** An object-reference keyframe: the sprite shown from `time` (in seconds) on. */
  datatype Keyframe = Keyframe(time: real, value: Sprite)

  /** A generated sprite animation, as it would be written to `path`. */
  datatype SpriteClip = SpriteClip(path: string, frameRate: int, binding: CurveBinding, keyframes: seq<Keyframe>)

  /** Every generated clip animates `SpriteRenderer.m_Sprite` on the object itself. */
  const SpriteBinding: CurveBinding := CurveBinding("SpriteRenderer", "", "m_Sprite")

  /** The first keyframe is at 0 and the times strictly increase, staying below 1 second. */
  predicate TimesWithinOneSecond(keyframes: seq<Keyframe>) {
    && (|keyframes| > 0 ==> keyframes[0].time == 0.0)
    && (forall i, j :: 0 <= i < j < |keyframes| ==> keyframes[i].time < keyframes[j].time)
    && (forall i :: 0 <= i < |keyframes| ==> 0.0 <= keyframes[i].time < 1.0)
  }

  /** `i / (float)frameRate`, taken exactly. */
  function FrameTime(i: int, frameRate: int): real
    requires frameRate > 0
  {
    (i as real) / (frameRate as real)
  }

  /** Frame i of n frames at n frames per second starts at i / n seconds, inside [0, 1). */
  lemma FrameTimes(n: int)
    requires n > 0
    ensures FrameTime(0, n) == 0.0
    ensures forall i, j :: 0 <= i < j < n ==> FrameTime(i, n) < FrameTime(j, n)
    ensures forall i :: 0 <= i < n ==> 0.0 <= FrameTime(i, n) < 1.0
  {
    forall i, j | 0 <= i < j < n
      ensures FrameTime(i, n) < FrameTime(j, n)
    {
      assert FrameTime(j, n) - FrameTime(i, n) == ((j - i) as real) / (n as real);
    }
  }

  /**
   * `clip` is the animation of `sprites` at `frameRate`, stored at `path`:
   * the sprite binding, and one keyframe per sprite, keyframe i showing
   * `sprites[i]` at `i / frameRate` seconds.
   */
  predicate IsAnimationOf(clip: SpriteClip, path: string, frameRate: int, sprites: seq<Sprite>)
    requires frameRate > 0
  {
    && clip.path == path
    && clip.frameRate == frameRate
    && clip.binding == SpriteBinding
    && |clip.keyframes| == |sprites|
    && (forall i :: 0 <= i < |sprites| ==>
          clip.keyframes[i].value == sprites[i] && clip.keyframes[i].time == FrameTime(i, frameRate))
  }

  /**
   * `CreateAnimation`: one keyframe per sprite, keyframe i showing
   * `sprites[i]` at `i / frameRate` seconds, all under the sprite binding.
   */
  method CreateAnimation(path: string, frameRate: int, sprites: seq<Sprite>) returns (clip: SpriteClip)
    requires frameRate > 0
    ensures IsAnimationOf(clip, path, frameRate, sprites)
    ensures frameRate == |sprites| ==> TimesWithinOneSecond(clip.keyframes)
  {
    var spriteKeyFrames := new Keyframe[|sprites|];
    for i := 0 to |sprites|
      invariant forall j :: 0 <= j < i ==>
        spriteKeyFrames[j] == Keyframe(FrameTime(j, frameRate), sprites[j])
    {
      spriteKeyFrames[i] := Keyframe(FrameTime(i, frameRate), sprites[i]);
    }
    clip := SpriteClip(path, frameRate, SpriteBinding, spriteKeyFrames[..]);
    FrameTimes(frameRate);
  }

  /* ------------------------------------------------------------- the command */

  /** The clip generated for one group: at `path`, one keyframe per sprite, all times within the first second. */
  predicate IsGeneratedClip(clip: SpriteClip, path: string, sprites: seq<Sprite>) {
    && |sprites| > 0
    && IsAnimationOf(clip, path, |sprites|, sprites)
    && TimesWithinOneSecond(clip.keyframes)
  }

  /**
   * `GenerateAnimationsBySpriteName`: one clip per base name among the
   * sprites, keyed by that base name. The dictionary is enumerated in an
   * unspecified order, modelled by picking any remaining key.
   */
  method GenerateAnimationsBySpriteName(directory: string, fileName: string, assets: seq<Asset>)
    returns (clips: map<string, SpriteClip>)
    ensures clips.Keys == KeysOf(SpritesOf(assets))
    ensures forall k :: k in clips ==>
      IsGeneratedClip(clips[k], AnimationPath(directory, fileName, k), GroupOf(SpritesOf(assets), k))
  {
    var name := Without(fileName, FileNameStripped);
    var pathPrefix := directory + "/";
    pathPrefix := pathPrefix + name + "-";
    var nameToSprites := GroupBySpriteName(assets);
    clips := map[];
    var remaining := nameToSprites.Keys;
    while remaining != {}
      invariant remaining <= nameToSprites.Keys
      invariant clips.Keys == nameToSprites.Keys - remaining
      invariant forall k :: k in clips ==>
        IsGeneratedClip(clips[k], AnimationPath(directory, fileName, k), nameToSprites[k])
      decreases remaining
    {
      var key :| key in remaining;
      var sprites := nameToSprites[key];
      var animationName := key;
      if name <= animationName {
        animationName := animationName[|name|..];
      }
      assert animationName == TrimmedKey(name, key);
      animationName := pathPrefix + animationName + ".anim";
      assert animationName == AnimationPath(directory, fileName, key);
      var clip := CreateAnimation(animationName, |sprites|, sprites);
      clips := clips[key := clip];
      remaining := remaining - {key};
    }
  }
}
