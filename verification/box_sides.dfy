/**
 Four box sides and the CSS shorthand rule that expands one to four values
 into them (section 8.4 of CSS 2.1, "padding" shorthand): a side whose value
 is omitted copies the value of the opposite side, and the right side falls
 back to the top one.
 */
module BoxSides {
  datatype Sides = Sides(top: real, right: real, bottom: real, left: real)

  function Uniform(v: real): (s: Sides)
    ensures s.top == s.right == s.bottom == s.left == v
  {
    Sides(v, v, v, v)
  }

  /** The CSS rule, stated per omitted side. */
  function CssShorthand(values: seq<real>): (s: Sides)
    requires 1 <= |values| <= 4
    ensures s.top == values[0]
  {
    var top := values[0];
    var right := if |values| > 1 then values[1] else top;
    var bottom := if |values| > 2 then values[2] else top;
    var left := if |values| > 3 then values[3] else right;
    Sides(top, right, bottom, left)
  }
}
