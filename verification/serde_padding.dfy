/**
 `SerdePadding`: an iced padding read from configuration, either one number
 for every side or a list of two or four numbers.
 */
module SerdePadding {
  import opened Wrappers
  import opened BoxSides

  /** The untagged `PaddingObj` enum: a single `f32` or a list of them. */
  datatype PaddingObj = F32(value: real) | VecF32(values: seq<real>)

  const InvalidPadding := "Invalid padding"
  /** serde's message when a value fits no variant of an untagged enum. */
  const NoVariant := "data did not match any variant of untagged enum PaddingObj"

  /** iced's `Padding::from([a, b])`: `a` vertically, `b` horizontally. */
  function FromPair(a: real, b: real): (p: Sides)
    ensures p.top == p.bottom == a && p.right == p.left == b
  {
    Sides(a, b, a, b)
  }

  /**
   `SerdePadding::deserialize`. `obj` is the value the deserializer read,
   `None` when it was neither a number nor a list of numbers.
   */
  function Deserialize(obj: Option<PaddingObj>): Result<Sides, string> {
    match obj
    case None => Err(NoVariant)
    case Some(F32(v)) => Ok(Uniform(v))
    case Some(VecF32(vs)) =>
      if |vs| == 2 then Ok(FromPair(vs[0], vs[1]))
      else if |vs| == 4 then Ok(Sides(vs[0], vs[1], vs[2], vs[3]))
      else Err(InvalidPadding)
  }

  /**
   A padding is accepted exactly when it is a number or a list of two or four
   numbers, and the accepted ones expand by the CSS shorthand rule.
   */
  lemma DeserializeSpec(obj: Option<PaddingObj>)
    ensures var r := Deserialize(obj);
      && (r.Ok? <==> obj.Some? && (obj.value.F32? || |obj.value.values| in {2, 4}))
      && (r.Ok? && obj.value.F32? ==> r.value == CssShorthand([obj.value.value]))
      && (r.Ok? && obj.value.VecF32? ==> r.value == CssShorthand(obj.value.values))
      && (r.Err? ==> r.error == (if obj.None? then NoVariant else InvalidPadding))
  {
  }

  /** A one-element list is not a scalar here: it is rejected. */
  lemma SingletonListRejected(v: real)
    ensures Deserialize(Some(VecF32([v]))) == Err(InvalidPadding)
    ensures Deserialize(Some(F32(v))).Ok?
  {
  }
}
