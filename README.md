# Animancer sprite animations, exposed curves and the png/gif toggle

A Dafny model of three small pieces of the Animancer repository:

- **Generate Animations By Sprite Name** (`SpriteAnimations`,
  `sprite_animations.dfy`). The editor command takes the assets loaded from a
  texture, keeps the sprites, groups them by their name with every space,
  ASCII digit and `-` removed, and creates one sprite animation per group at
  `<directory>/<file name without spaces>-<key>.anim`, where the key loses
  the file name from its front when it starts with it. A group of n sprites
  becomes a clip at n frames per second whose keyframe i shows sprite i at
  i/n seconds, so every keyframe time lies in [0, 1). The grouping loop
  fills a dictionary in place; the model (`GroupBySpriteName`) rebinds a
  `map` value on each pass instead. The keyframes are written into
  an array (`CreateAnimation`). The model proves that the dictionary
  partitions the sprites by base name in input order with no empty group,
  that any enumeration of it is a permutation of the sprites, the shape of
  every path, and that the keyframe times start at 0, strictly increase and
  stay below 1.
- **ExposedCurve** (`ExposedCurves`, `exposed_curve.dfy`). A class with the
  asset's three serialized fields: the clip, the property name and the
  cached curve. `TryGetCurveBinding` is a guarded first-match search over
  the clip's bindings; `OnEnable` and `OnValidate` recompute the cached
  curve from it; the `Curve` setter refuses null.
- **The png/gif toggle** (`Pngif`, `pngif.dfy`). `pngif` drops the last
  three characters of an image's `src` and appends `gif` when `src` ended
  in `g`, `png` otherwise; the page applies it once to every element on
  load.

Host services are inputs: the loaded assets are a sequence (the host sorts
them first), the texture's directory and file name are strings,
`AnimationUtility.GetCurveBindings(clip)` is the clip's `bindings`
sequence, `AnimationUtility.GetEditorCurve` is a function parameter, and a
created clip is returned as a value instead of being written to disk.
Null references are `Option.None`, thrown exceptions are `Result.Failure`.

The sprite command sorts the assets with a plain `CompareTo` on their
names (AnimancerEditorUtilities.Sprites.cs:32); the pattern `[ \d-]`
removes spaces, digits and hyphens anywhere in a sprite's name
(AnimancerEditorUtilities.Sprites.cs:40); and every sprite of a group gets
its own keyframe, repeated sprites included
(AnimancerEditorUtilities.Sprites.cs:82-88).

Two groups of one texture can receive the same path: with the texture
"Hero", the keys `HeroWalk` (sprite "Hero Walk 1") and `Walk` (sprite
"Walk 1") both trim to `Walk` (`AnimationPathsCanCollide`), and the host
then replaces the clip created first with the one created second, in the
dictionary's unspecified order. `AnimationPathsEqual` states exactly when
this happens.

## Model

| member | source | states |
|---|---|---|
| `SpriteAnimations.Without` | docs/manual/getting/sprites/AnimancerEditorUtilities.Sprites.cs:25 | removing a set of characters leaves none of them and never lengthens the string |
| `SpriteAnimations.WithoutKeepsOthers` | docs/manual/getting/sprites/AnimancerEditorUtilities.Sprites.cs:40 | every character not removed is kept as often as it occurs in the input |
| `SpriteAnimations.WithoutConcat` | docs/manual/getting/sprites/AnimancerEditorUtilities.Sprites.cs:40 | removal distributes over concatenation, so the kept characters stay in their original order |
| `SpriteAnimations.WithoutKeepsClean` | docs/manual/getting/sprites/AnimancerEditorUtilities.Sprites.cs:40 | a string with none of the removed characters is returned unchanged |
| `SpriteAnimations.WithoutIdempotent` | docs/manual/getting/sprites/AnimancerEditorUtilities.Sprites.cs:40 | removing the characters a second time changes nothing |
| `SpriteAnimations.BaseName` | docs/manual/getting/sprites/AnimancerEditorUtilities.Sprites.cs:39-40 | a sprite's base name holds no space, ASCII digit or `-` |
| `SpriteAnimations.SpritesOf` | docs/manual/getting/sprites/AnimancerEditorUtilities.Sprites.cs:33-37 | no more sprites are kept than there are assets |
| `SpriteAnimations.SpritesOfMembers` | docs/manual/getting/sprites/AnimancerEditorUtilities.Sprites.cs:35-37 | the sprites kept from the assets are exactly the sprite assets |
| `SpriteAnimations.SpritesOfConcat` | docs/manual/getting/sprites/AnimancerEditorUtilities.Sprites.cs:33-37 | the sprites of two runs of assets are those of the first followed by those of the second |
| `SpriteAnimations.OtherAssetsAreSkipped` | docs/manual/getting/sprites/AnimancerEditorUtilities.Sprites.cs:35-37 | an asset that is not a sprite, wherever it stands, changes nothing about the sprites grouped |
| `SpriteAnimations.GroupOf` | docs/manual/getting/sprites/AnimancerEditorUtilities.Sprites.cs:42-48 | a group is never longer than the sprites it is taken from |
| `SpriteAnimations.GroupOfMembers` | docs/manual/getting/sprites/AnimancerEditorUtilities.Sprites.cs:40-48 | a group holds exactly the sprites whose base name is its key |
| `SpriteAnimations.GroupOfConcat` | docs/manual/getting/sprites/AnimancerEditorUtilities.Sprites.cs:42-48 | a group of two runs of sprites is the group of the first followed by that of the second: input order is kept within a group |
| `SpriteAnimations.GroupingIsPartition` | docs/manual/getting/sprites/AnimancerEditorUtilities.Sprites.cs:42-48 | the dictionary built sprite by sprite has one key per base name among the sprites, and under each key exactly that key's sprites in input order |
| `SpriteAnimations.GroupsAreNonEmpty` | docs/manual/getting/sprites/AnimancerEditorUtilities.Sprites.cs:44-48 | every list in the dictionary holds at least one sprite |
| `SpriteAnimations.EverySpriteInItsGroup` | docs/manual/getting/sprites/AnimancerEditorUtilities.Sprites.cs:33-49 | every sprite asset is in the list of its own base name, and a list holds only sprite assets with its key as base name, so each sprite lands in exactly one group |
| `SpriteAnimations.GroupsPartitionSprites` | docs/manual/getting/sprites/AnimancerEditorUtilities.Sprites.cs:51-58 | enumerating the dictionary in any order, each key once, the lists together are a permutation of the sprites, so their sizes sum to the number of sprites |
| `SpriteAnimations.GroupBySpriteName` | docs/manual/getting/sprites/AnimancerEditorUtilities.Sprites.cs:30-49 | the loop's dictionary has one key per base name, under each key the sprites with that base name in input order, and no empty list |
| `SpriteAnimations.TrimmedKey` | docs/manual/getting/sprites/AnimancerEditorUtilities.Sprites.cs:53-55 | when the key starts with the texture name, the name followed by the result is the key; otherwise the key is unchanged |
| `SpriteAnimations.AnimationPathShape` | docs/manual/getting/sprites/AnimancerEditorUtilities.Sprites.cs:53-56 | the path starts with the directory, `/`, the file name without spaces, then `-`, ends in `.anim`, and holds exactly the trimmed key in between |
| `SpriteAnimations.AnimationPathsEqual` | docs/manual/getting/sprites/AnimancerEditorUtilities.Sprites.cs:53-56 | two keys of one texture get the same path exactly when their trimmed keys are equal |
| `SpriteAnimations.AnimationPathsCanCollide` | docs/manual/getting/sprites/AnimancerEditorUtilities.Sprites.cs:53-55 | with the texture name `Hero`, the distinct keys `HeroWalk` and `Walk` both trim to `Walk` |
| `SpriteAnimations.FrameTimes` | docs/manual/getting/sprites/AnimancerEditorUtilities.Sprites.cs:82-86 | with n frames at n per second, the first time is 0, times strictly increase, and all lie in [0, 1) |
| `SpriteAnimations.CreateAnimation` | docs/manual/getting/sprites/AnimancerEditorUtilities.Sprites.cs:66-94 | the clip has the given path and frame rate, the binding `m_Sprite` on an empty path, one keyframe per sprite, keyframe i showing sprite i at i/frameRate; with frameRate equal to the sprite count the times start at 0, strictly increase and lie in [0, 1) |
| `SpriteAnimations.GenerateAnimationsBySpriteName` | docs/manual/getting/sprites/AnimancerEditorUtilities.Sprites.cs:20-62 | one clip per base name among the sprites, at that key's path, with the key's group as keyframes at a frame rate equal to the group size (at least 1), its keyframe times starting at 0, strictly increasing and lying in [0, 1) |
| `Pngif.ToggleShape` | assets/js/pngif.js:8-16 | for `src` of length at least 3 the result has its length and keeps all but its last three characters; a shorter `src` gives exactly `gif` or `png`; the result ends in `gif` exactly when `src` ends in `g`, and in `png` otherwise |
| `Pngif.ToggleInvolution` | assets/js/pngif.js:10-14 | toggling twice restores a `src` that ends in `png` or `gif` |
| `Pngif.ToggleLosesJpg` | assets/js/pngif.js:10-12 | a `.jpg` source becomes `.gif` and then `.png`, so the toggle is not an involution in general |
| `Pngif.ToggleAll` | assets/js/pngif.js:1-6 | after the load loop each element's `src` is its old `src` toggled exactly once |
| `ExposedCurves.FirstBinding` | docs/manual/ik/ExposedCurve.cs:127-133 | the index found is of a binding for the property with no earlier one; none is found exactly when no binding is for the property |
| `ExposedCurves.ExposedCurve.TryGetCurveBinding` | docs/manual/ik/ExposedCurve.cs:122-138 | false with the default binding when the clip is null or the name null or empty; when true, the binding is the first in the clip's list whose property is the name; with a clip and a name, false exactly when no binding matches |
| `ExposedCurves.ExposedCurve.OnEnable` | docs/manual/ik/ExposedCurve.cs:101-111 | the cached curve becomes the host's curve for the found binding, or null when none is found; clip and name are unchanged |
| `ExposedCurves.ExposedCurve.OnValidate` | docs/manual/ik/ExposedCurve.cs:115-118 | has the effect of `OnEnable`, and leaves an up-to-date curve as it is (repeated calls are idempotent) |
| `ExposedCurves.ExposedCurve.SetCurve` | docs/manual/ik/ExposedCurve.cs:60-66 | null is refused with `ArgumentNullException("value")` and the curve is unchanged; any other curve is stored |
| `ExposedCurves.ExposedCurve.SetClip` | docs/manual/ik/ExposedCurve.cs:24-28 | the clip is stored; the cached curve is not touched |
| `ExposedCurves.ExposedCurve.Evaluate` | docs/manual/ik/ExposedCurve.cs:86-89 | a null state gives 0; a state with no extracted curve fails with a null reference; otherwise the curve is sampled for the state |

## Left out

- The sort of the assets by name (AnimancerEditorUtilities.Sprites.cs:32) uses the host's culture-sensitive `CompareTo`; the model takes the assets in the order the sort leaves them and proves every grouping property for any order.
- `SpriteAnimations.BaseName`: removes the ASCII digits 0-9 only, while .NET's `\d` also matches other Unicode decimal digits.
- `SpriteAnimations.CreateAnimation`: requires a frame rate of at least 1, which its one caller guarantees (`GroupsAreNonEmpty`); keyframe times are exact rationals i/n, not the rounded `float` of `i / (float)frameRate`.
- `SpriteAnimations.GenerateAnimationsBySpriteName`: returns the clips keyed by group instead of writing them through `AssetDatabase.CreateAsset` and `SaveAssets`; which clip survives when two paths collide depends on the dictionary's enumeration order and the host's overwrite, and is not modelled.
- `Path.GetFileNameWithoutExtension` and `Path.GetDirectoryName` are inputs (file name and directory); `StartsWith` is an ordinal prefix test rather than a culture-sensitive one.
- `AnimationClip` creation, `SetObjectReferenceCurve`, the `SpriteRenderer` type object and the `MenuCommand`/`TextureImporter` plumbing are host APIs; the binding's type is recorded by name.
- `ExposedCurves.ExposedCurve.TryGetCurveBinding`: the default binding's null strings are modelled as empty strings.
- `ExposedCurves.ExposedCurve.SetClip`: `Validate.AssertAnimationClip` is a foreign check and is not modelled.
- `ExposedCurves.ExposedCurve.Evaluate`: `state.Time % state.Length` and `AnimationCurve.Evaluate` are float host operations, passed in as the `sample` function.
- `Evaluate(AnimancerComponent)`, which looks the state up in the component's host-owned state dictionary, the `Clip`, `Curve` and `PropertyName` getters (they return the fields), the implicit conversion operators and the nested custom `Editor` class are glue.
- pngif.js: `getElementsByClassName`, `getAttribute`/`setAttribute` and the `onclick` binding that calls the same toggle on every click are DOM plumbing; elements are an array of `src` strings.
- pngif.js: an element without a `src` attribute makes `getAttribute` return null and the toggle throw; the model's `src` is always a string.
- `Pngif.ToggleShape`: lengths and slices are counted in Unicode characters, not in the UTF-16 code units of JavaScript's `slice` and `length`, so a `src` whose last three code units split a surrogate pair is cut differently.
- `SpriteAnimations.GroupBySpriteName`: the dictionary and its lists are `map` and `seq` values rebound on each pass; the in-place `List.Add` on a list shared with the dictionary (aliasing) is not modelled, only its effect on the entry.
