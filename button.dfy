/**
 * The reusable `Button` component: how its CSS class string is assembled from
 * the `variant`, `isActive` and `className` props, and which props reach the
 * rendered `<button>` element unchanged.
 */
module Button {
  import opened JsValues
  import opened Strings

  datatype ButtonProps = ButtonProps(
    variant: JsValue,
    isActive: JsValue,
    className: JsValue,
    buttonType: JsValue,
    disabled: JsValue,
    onClick: JsValue)

  /** The attributes of the rendered `<button>` element. */
  datatype ButtonElement = ButtonElement(
    buttonType: JsValue,
    disabled: JsValue,
    onClick: JsValue,
    className: string)

  /** A destructuring default `x = d`: it applies to `undefined` only, not to `null`. */
  function WithDefault(v: JsValue, d: JsValue): (r: JsValue)
    ensures v.Undefined? ==> r == d
    ensures !v.Undefined? ==> r == v
  {
    if v.Undefined? then d else v
  }

  /** The template literal `${base} ${variantClass} ${activeClass} ${className}` before `trim()`. */
  function ClassTemplate(variant: JsValue, isActive: JsValue, className: JsValue): string
  {
    var variantClass := if Truthy(variant) then "btn--" + ToJsString(variant) else "";
    var activeClass := if Truthy(isActive) then "active" else "";
    "btn" + " " + variantClass + " " + activeClass + " " + ToJsString(WithDefault(className, Str("")))
  }

  /**
   * `combinedClassName`: the template with its trailing whitespace removed.
   * It always starts with `btn`, never starts or ends with whitespace, and
   * keeps any interior run of spaces left by an empty variant or active class.
   */
  function CombinedClassName(variant: JsValue, isActive: JsValue, className: JsValue): (r: string)
    ensures |r| >= 3 && r[..3] == "btn"
    ensures !IsWhitespace(r[0]) && !IsWhitespace(r[|r| - 1])
    ensures |r| <= |ClassTemplate(variant, isActive, className)|
    ensures r == ClassTemplate(variant, isActive, className)[..|r|]
    ensures IsBlank(ClassTemplate(variant, isActive, className)[|r|..])
  {
    var t := ClassTemplate(variant, isActive, className);
    TrimFromBtn(t);
    Trim(t)
  }

  /** On a string that starts with `btn`, `trim()` only removes trailing whitespace. */
  lemma TrimFromBtn(t: string)
    requires |t| >= 3 && t[..3] == "btn"
    ensures Trim(t) == TrimEnd(t)
    ensures |TrimEnd(t)| >= 3
  {
    assert t[0] == 'b' && t[2] == 'n';
    TrimSolidStart(t, 2);
  }

  /** `trim()` keeps a leading part that starts with `btn` and ends in a non-space. */
  lemma TrimKeepsLead(a: string, rest: string)
    requires |a| >= 3 && a[..3] == "btn" && !IsWhitespace(a[|a| - 1])
    ensures |Trim(a + rest)| >= |a| && Trim(a + rest)[..|a|] == a
  {
    assert (a + rest)[..3] == "btn";
    TrimFromBtn(a + rest);
    TrimEndKeepsPrefix(a, rest);
  }

  /** The template text with a `btn--` variant class, for any variant, active and extra class text. */
  lemma PrefixOfTemplate(v: string, ac: string, cn: string)
    ensures |"btn" + " " + ("btn--" + v) + " " + ac + " " + cn| >= 9
    ensures ("btn" + " " + ("btn--" + v) + " " + ac + " " + cn)[..9] == "btn btn--"
  {
    var t := "btn" + " " + ("btn--" + v) + " " + ac + " " + cn;
    assert t == "btn btn--" + (v + " " + ac + " " + cn);
  }

  /** A truthy variant is the second class, right after `btn `. */
  lemma VariantFollowsBase(variant: JsValue, isActive: JsValue, className: JsValue)
    requires Truthy(variant)
    ensures var r := CombinedClassName(variant, isActive, className);
      |r| >= 9 && r[..9] == "btn btn--"
  {
    var t := ClassTemplate(variant, isActive, className);
    var a := "btn btn--";
    PrefixOfTemplate(ToJsString(variant), if Truthy(isActive) then "active" else "",
      ToJsString(WithDefault(className, Str(""))));
    assert t == a + t[|a|..];
    TrimKeepsLead(a, t[|a|..]);
  }

  /** With no variant, no active flag and no extra class, the class is exactly `btn`. */
  lemma PlainButton(variant: JsValue, isActive: JsValue, className: JsValue)
    requires !Truthy(variant) && !Truthy(isActive)
    requires className == Undefined || className == Str("")
    ensures CombinedClassName(variant, isActive, className) == "btn"
  {
    var t := ClassTemplate(variant, isActive, className);
    assert ToJsString(WithDefault(className, Str(""))) == "";
    assert t == "btn" + " " + "" + " " + "" + " " + "";
    assert t == "btn" + "   ";
    TrimFromBtn(t);
    TrimEndKeepsPrefix("btn", "   ");
  }

  /** An active toggle without a variant keeps the double space the template leaves. */
  lemma ActiveWithoutVariant(variant: JsValue, isActive: JsValue, className: JsValue)
    requires !Truthy(variant) && Truthy(isActive)
    requires className == Undefined || className == Str("")
    ensures CombinedClassName(variant, isActive, className) == "btn  active"
  {
    var t := ClassTemplate(variant, isActive, className);
    assert ToJsString(WithDefault(className, Str(""))) == "";
    assert t == "btn" + " " + "" + " " + "active" + " " + "";
    assert t == "btn  active" + " ";
    TrimFromBtn(t);
    TrimEndKeepsPrefix("btn  active", " ");
  }

  /** The rendered element: `type` defaults to `button`; `disabled` and `onClick` pass through. */
  function Render(p: ButtonProps): (e: ButtonElement)
    ensures e.buttonType == (if p.buttonType.Undefined? then Str("button") else p.buttonType)
    ensures e.disabled == p.disabled && e.onClick == p.onClick
    ensures e.className == CombinedClassName(p.variant, p.isActive, p.className)
  {
    ButtonElement(WithDefault(p.buttonType, Str("button")), p.disabled, p.onClick,
                  CombinedClassName(p.variant, p.isActive, p.className))
  }
}
