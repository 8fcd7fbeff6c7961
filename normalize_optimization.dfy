/**
 * The optimization option of a browser build is either one boolean for
 * everything or an object with separate `scripts` and `styles` switches; it
 * is normalized to two booleans.
 */
module OptimizationOptions {

  /** The JavaScript values the option can hold; `Number` leaves out NaN and the sign of zero. */
  datatype JsValue =
    | Undefined
    | Null
    | Bool(b: bool)
    | Number(n: int)
    | Str(s: string)
    | Object(fields: map<string, JsValue>)
    | Array(elements: seq<JsValue>)
    | Function

  /** JavaScript truthiness: what `!!v` yields. */
  predicate Truthy(v: JsValue) {
    match v
    case Undefined => false
    case Null => false
    case Bool(b) => b
    case Number(n) => n != 0
    case Str(s) => s != ""
    case Object(_) => true
    case Array(_) => true
    case Function => true
  }

  /** `typeof v === 'object'`, which holds for `null` as well. */
  predicate TypeofIsObject(v: JsValue) {
    v.Null? || v.Object? || v.Array?
  }

  /** The property read `v[name]` on a value that is not `null`; an absent property reads as `undefined`. */
  function Field(v: JsValue, name: string): (r: JsValue)
    requires !v.Null?
    ensures v.Object? && name in v.fields ==> r == v.fields[name]
    ensures !(v.Object? && name in v.fields) ==> r == Undefined
  {
    match v
    case Object(fields) => if name in fields then fields[name] else Undefined
    case _ => Undefined
  }

  datatype NormalizedOptimization = NormalizedOptimization(scripts: bool, styles: bool)

  /**
   * `normalizeOptimization`: an object contributes its `scripts` and `styles`
   * properties, anything else stands for both; each is coerced to a boolean.
   * `null` is excluded: its `typeof` is `'object'` and the property read throws.
   */
  function NormalizeOptimization(optimization: JsValue): (r: NormalizedOptimization)
    requires !optimization.Null?
    ensures optimization.Bool? ==> r.scripts == optimization.b && r.styles == optimization.b
    ensures optimization.Object? ==>
      && (r.scripts <==> "scripts" in optimization.fields && Truthy(optimization.fields["scripts"]))
      && (r.styles <==> "styles" in optimization.fields && Truthy(optimization.fields["styles"]))
    ensures optimization.Array? ==> !r.scripts && !r.styles
    ensures !TypeofIsObject(optimization) ==> r.scripts == Truthy(optimization) && r.styles == Truthy(optimization)
  {
    var scripts := Truthy(if TypeofIsObject(optimization) then Field(optimization, "scripts") else optimization);
    var styles := Truthy(if TypeofIsObject(optimization) then Field(optimization, "styles") else optimization);
    NormalizedOptimization(scripts, styles)
  }

  /** The object form of a normalized option. */
  function AsObject(n: NormalizedOptimization): (v: JsValue)
    ensures v.Object? && v.fields.Keys == {"scripts", "styles"}
  {
    Object(map["scripts" := Bool(n.scripts), "styles" := Bool(n.styles)])
  }

  /** Normalizing the object form of a normalized option gives it back. */
  lemma NormalizeAsObject(n: NormalizedOptimization)
    ensures NormalizeOptimization(AsObject(n)) == n
  {
    var fields := AsObject(n).fields;
    assert fields["scripts"] == Bool(n.scripts) && fields["styles"] == Bool(n.styles);
  }

  /** A boolean means the same as an object that sets both switches to it. */
  lemma BoolIsBothSwitches(b: bool)
    ensures NormalizeOptimization(Bool(b)) == NormalizeOptimization(AsObject(NormalizedOptimization(b, b)))
  {
    NormalizeAsObject(NormalizedOptimization(b, b));
  }

  /** `scripts` depends only on the `scripts` property and `styles` only on the `styles` property. */
  lemma SwitchesIndependent(f: map<string, JsValue>, g: map<string, JsValue>)
    ensures Field(Object(f), "scripts") == Field(Object(g), "scripts") ==>
      NormalizeOptimization(Object(f)).scripts == NormalizeOptimization(Object(g)).scripts
    ensures Field(Object(f), "styles") == Field(Object(g), "styles") ==>
      NormalizeOptimization(Object(f)).styles == NormalizeOptimization(Object(g)).styles
  {
  }

  /** Changing one switch of an object leaves the other output alone. */
  lemma UpdateOneSwitch(f: map<string, JsValue>, v: JsValue)
    ensures NormalizeOptimization(Object(f["scripts" := v])).styles == NormalizeOptimization(Object(f)).styles
    ensures NormalizeOptimization(Object(f["styles" := v])).scripts == NormalizeOptimization(Object(f)).scripts
    ensures NormalizeOptimization(Object(f["scripts" := v])).scripts == Truthy(v)
    ensures NormalizeOptimization(Object(f["styles" := v])).styles == Truthy(v)
  {
    SwitchesIndependent(f["scripts" := v], f);
    SwitchesIndependent(f["styles" := v], f);
  }

  /** A falsy value that is not an object, and the empty object, turn every optimization off. */
  lemma FalsyTurnsOff(optimization: JsValue)
    requires !TypeofIsObject(optimization) && !Truthy(optimization)
    ensures NormalizeOptimization(optimization) == NormalizedOptimization(false, false)
    ensures NormalizeOptimization(Object(map[])) == NormalizedOptimization(false, false)
  {
  }
}
