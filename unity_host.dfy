/**
 * The few Unity Editor objects the modelled code touches, reduced to the
 * parts it reads. Host objects are opaque values; `id` stands for their
 * reference identity.
 */
module UnityHost {

  /** A sprite: a named sub-image of a texture asset. */
  datatype Sprite = Sprite(name: string, id: nat)

  /** An asset loaded from a texture's path: a sprite or some other object. */
  datatype Asset = SpriteAsset(sprite: Sprite) | OtherAsset(name: string, id: nat)

  /**
   * An editor curve binding: the component type, the path of the animated
   * object and the animated property.
   */
  datatype CurveBinding = CurveBinding(typeName: string, path: string, propertyName: string)

  /** `new EditorCurveBinding()`: every field left at its default (null strings read as ""). */
  const DefaultBinding: CurveBinding := CurveBinding("", "", "")
}
