/**
 * `ExposedCurve`: an asset that copies one animation curve out of a clip in
 * the editor so that it can be read at run time. It remembers the clip, the
 * name of the curve's property and the extracted curve, and re-extracts the
 * curve whenever it is enabled or edited.
 *
 * The host's `AnimationUtility.GetEditorCurve` is passed in as a function;
 * `AnimationUtility.GetCurveBindings(clip)` is the clip's `bindings`.
 */
module ExposedCurves {
  import opened Wrappers
  import opened UnityHost

  /** An animation clip, reduced to its identity and its curve bindings in the host's order. */
  datatype AnimationClip = AnimationClip(id: nat, bindings: seq<CurveBinding>)

  /** An animation curve owned by the host. */
  datatype AnimationCurve = AnimationCurve(id: nat)

  /** An Animancer state, reduced to what `Evaluate` reads. */
  datatype AnimancerState = AnimancerState(time: real, length: real)

  datatype Exception = ArgumentNullException(paramName: string) | NullReferenceException

  /** The host's `GetEditorCurve(clip, binding)`, which may return null. */
  type CurveSource = (AnimationClip, CurveBinding) -> Option<AnimationCurve>

  /** The index of the first binding for property `name`, if any. */
  function FirstBinding(bindings: seq<CurveBinding>, name: string): (r: Option<nat>)
    ensures r.Some? ==> r.value < |bindings| && bindings[r.value].propertyName == name
    ensures r.Some? ==> forall j :: 0 <= j < r.value ==> bindings[j].propertyName != name
    ensures r.None? <==> forall j :: 0 <= j < |bindings| ==> bindings[j].propertyName != name
  {
    if bindings == [] then None
    else if bindings[0].propertyName == name then Some(0)
    else match FirstBinding(bindings[1..], name)
      case None => None
      case Some(i) => Some(i + 1)
  }

  /** `string.IsNullOrEmpty`. */
  predicate IsNullOrEmpty(s: Option<string>) {
    s.None? || s.value == ""
  }

  /** The binding `TryGetCurveBinding` finds for a clip and a property name. */
  function BindingFor(clip: Option<AnimationClip>, propertyName: Option<string>): Option<CurveBinding> {
    if clip.None? || IsNullOrEmpty(propertyName) then None
    else match FirstBinding(clip.value.bindings, propertyName.value)
      case None => None
      case Some(i) => Some(clip.value.bindings[i])
  }

  /** The curve `OnEnable` extracts: the host's curve for the found binding, or null. */
  function ExtractedCurve(clip: Option<AnimationClip>, propertyName: Option<string>, getEditorCurve: CurveSource)
    : Option<AnimationCurve>
  {
    match BindingFor(clip, propertyName)
    case None => None
    case Some(binding) => getEditorCurve(clip.value, binding)
  }

  class ExposedCurve {
    var clip: Option<AnimationClip>
    var propertyName: Option<string>
    var curve: Option<AnimationCurve>

    /** A new asset: every serialized field null. */
    constructor ()
      ensures clip == None && propertyName == None && curve == None
    {
      clip, propertyName, curve := None, None, None;
    }

    /**
     * `TryGetCurveBinding`: with a clip and a non-empty property name, the
     * first of the clip's bindings for that property; otherwise, or when
     * there is none, false and a default binding.
     */
    method TryGetCurveBinding() returns (found: bool, binding: CurveBinding)
      ensures clip.None? || IsNullOrEmpty(propertyName) ==> !found
      ensures !found ==> binding == DefaultBinding
      ensures found ==> binding.propertyName == propertyName.value
      ensures found ==> exists i :: 0 <= i < |clip.value.bindings| && clip.value.bindings[i] == binding &&
                                  (forall j :: 0 <= j < i ==> clip.value.bindings[j].propertyName != propertyName.value)
      ensures clip.Some? && !IsNullOrEmpty(propertyName) ==>
        (!found <==> forall b :: b in clip.value.bindings ==> b.propertyName != propertyName.value)
      ensures (if found then Some(binding) else None) == BindingFor(clip, propertyName)
    {
      if clip.Some? && !IsNullOrEmpty(propertyName) {
        var bindings := clip.value.bindings;
        for i := 0 to |bindings|
          invariant forall j :: 0 <= j < i ==> bindings[j].propertyName != propertyName.value
        {
          binding := bindings[i];
          if binding.propertyName == propertyName.value {
            return true, binding;
          }
        }
      }
      binding := DefaultBinding;
      return false, binding;
    }

    /** `OnEnable`: re-extract the curve from the clip; only `curve` changes. */
    method OnEnable(getEditorCurve: CurveSource)
      modifies this`curve
      ensures curve == ExtractedCurve(clip, propertyName, getEditorCurve)
      ensures clip == old(clip) && propertyName == old(propertyName)
    {
      var found, binding := TryGetCurveBinding();
      if found {
        curve := getEditorCurve(clip.value, binding);
      } else {
        curve := None;
      }
    }

    /**
     * `OnValidate` does what `OnEnable` does, so with the clip and name
     * unchanged a second call finds the curve already up to date.
     */
    method OnValidate(getEditorCurve: CurveSource)
      modifies this`curve
      ensures curve == ExtractedCurve(clip, propertyName, getEditorCurve)
      ensures clip == old(clip) && propertyName == old(propertyName)
      ensures old(curve) == ExtractedCurve(old(clip), old(propertyName), getEditorCurve) ==> curve == old(curve)
    {
      OnEnable(getEditorCurve);
    }

    /** The `Curve` setter: null is refused with an exception and changes nothing. */
    method SetCurve(value: Option<AnimationCurve>) returns (r: Result<(), Exception>)
      modifies this`curve
      ensures value.None? ==> r == Failure(ArgumentNullException("value")) && curve == old(curve)
      ensures value.Some? ==> r == Success(()) && curve == value
    {
      if value.None? {
        return Failure(ArgumentNullException("value"));
      }
      curve := value;
      return Success(());
    }

    /** The `Clip` setter: stores the clip; the curve is only re-extracted by `OnValidate`. */
    method SetClip(value: Option<AnimationClip>)
      modifies this`clip
      ensures clip == value
    {
      clip := value;
    }

    /**
     * `Evaluate(AnimancerState)`: 0 for a null state; otherwise the curve
     * sampled at the state's time, which fails when no curve was extracted.
     * `sample` stands for `_Curve.Evaluate(state.Time % state.Length)`.
     */
    function Evaluate(state: Option<AnimancerState>, sample: (AnimationCurve, AnimancerState) -> real)
      : (r: Result<real, Exception>)
      reads this
      ensures state.None? ==> r == Success(0.0)
      ensures state.Some? && curve.None? ==> r == Failure(NullReferenceException)
      ensures state.Some? && curve.Some? ==> r == Success(sample(curve.value, state.value))
    {
      if state.None? then Success(0.0)
      else if curve.None? then Failure(NullReferenceException)
      else Success(sample(curve.value, state.value))
    }
  }
}
