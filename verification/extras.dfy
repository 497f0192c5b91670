/** The "extra" fields attached to every record: a process-wide defaults map and
    an optional layer belonging to the current execution context. Values are of
    an arbitrary type `V`. */
module Extras {
  import opened Wrappers

  /** `d.update(e)`: every key of `e` takes its value from `e`, every other key of
      `d` keeps its value. */
  function Update<V>(d: map<string, V>, e: map<string, V>): (r: map<string, V>)
    ensures r.Keys == d.Keys + e.Keys
    ensures forall k :: k in e ==> r[k] == e[k]
    ensures forall k :: k in d && k !in e ==> r[k] == d[k]
  {
    d + e
  }

  /** The defaults held by the settings manager and the current context's layer
      (absent until the context first sets an extra). */
  datatype ExtrasState<V> = ExtrasState(defaults: map<string, V>, context: Option<map<string, V>>)

  /** The context layer, an absent one read as empty. */
  function Layer<V>(st: ExtrasState<V>): map<string, V> {
    st.context.GetOr(map[])
  }

  /** `get_logging_extras`: with no context layer the defaults; with empty
      defaults the layer itself; otherwise a copy of the defaults updated by the
      layer. In every branch the context wins on a shared key. */
  function Effective<V>(st: ExtrasState<V>): (r: map<string, V>)
    ensures r.Keys == st.defaults.Keys + Layer(st).Keys
    ensures forall k :: k in Layer(st) ==> r[k] == Layer(st)[k]
    ensures forall k :: k in st.defaults && k !in Layer(st) ==> r[k] == st.defaults[k]
    ensures st.context.None? ==> r == st.defaults
  {
    match st.context
    case None => st.defaults
    case Some(d) =>
      if |st.defaults| == 0 then d
      else Update(st.defaults, d)
  }

  /** The three branches of `get_logging_extras` all agree with the single
      overlay of the defaults by the context layer. */
  lemma EffectiveIsOverlay<V>(st: ExtrasState<V>)
    ensures Effective(st) == Update(st.defaults, Layer(st))
  {
  }

  /** With empty defaults the effective extras are exactly the context layer. */
  lemma EffectiveEmptyDefaults<V>(st: ExtrasState<V>)
    requires |st.defaults| == 0 && st.context.Some?
    ensures Effective(st) == st.context.value
    ensures Effective(st) == Update(st.defaults, Layer(st))
  {
  }

  /** `set_default(key, value)`: one default changes, the context layer does not. */
  function SetDefault<V>(st: ExtrasState<V>, key: string, value: V): (r: ExtrasState<V>)
    ensures r.context == st.context
    ensures r.defaults.Keys == st.defaults.Keys + {key} && r.defaults[key] == value
    ensures forall k :: k in st.defaults && k != key ==> r.defaults[k] == st.defaults[k]
  {
    st.(defaults := st.defaults[key := value])
  }

  /** `set_defaults(defaults)`: the given defaults replace or join the existing
      ones, the context layer is untouched. */
  function SetDefaults<V>(st: ExtrasState<V>, defaults: map<string, V>): (r: ExtrasState<V>)
    ensures r.context == st.context
    ensures r.defaults.Keys == st.defaults.Keys + defaults.Keys
    ensures forall k :: k in defaults ==> r.defaults[k] == defaults[k]
    ensures forall k :: k in st.defaults && k !in defaults ==> r.defaults[k] == st.defaults[k]
  {
    st.(defaults := Update(st.defaults, defaults))
  }

  /** `set_logging_extras(extras)`: an absent layer starts from `{}`, then the
      layer is updated by `extras`; the defaults are untouched. */
  function SetLoggingExtras<V>(st: ExtrasState<V>, extras: map<string, V>): (r: ExtrasState<V>)
    ensures r.defaults == st.defaults && r.context.Some?
    ensures st.context.None? ==> r.context.value == extras
    ensures r.context.value.Keys == Layer(st).Keys + extras.Keys
    ensures forall k :: k in extras ==> r.context.value[k] == extras[k]
    ensures forall k :: k in Layer(st) && k !in extras ==> r.context.value[k] == Layer(st)[k]
  {
    var d := match st.context case None => map[] case Some(d) => d;
    st.(context := Some(Update(d, extras)))
  }

  /** `set_logging_extra(name, val)`: `set_logging_extras({name: val})`. */
  function SetLoggingExtra<V>(st: ExtrasState<V>, name: string, val: V): (r: ExtrasState<V>)
    ensures r.defaults == st.defaults
    ensures r.context == Some(Layer(st)[name := val])
  {
    assert Update(Layer(st), map[name := val]) == Layer(st)[name := val];
    SetLoggingExtras(st, map[name := val])
  }

  /** Setting a context extra makes it the effective value of that key, whatever
      the defaults say, and leaves every other effective value alone. */
  lemma SetExtraThenEffective<V>(st: ExtrasState<V>, name: string, val: V)
    ensures Effective(SetLoggingExtra(st, name, val)) == Effective(st)[name := val]
  {
    var st' := SetLoggingExtra(st, name, val);
    assert Layer(st') == Layer(st)[name := val];
    EffectiveIsOverlay(st);
    EffectiveIsOverlay(st');
    OverlayThenSet(st.defaults, Layer(st), name, val);
  }

  /** Setting one key on top of an overlay equals overlaying the layer with that
      key set. */
  lemma OverlayThenSet<V>(d: map<string, V>, l: map<string, V>, name: string, val: V)
    ensures Update(d, l[name := val]) == Update(d, l)[name := val]
  {
    var a := Update(d, l[name := val]);
    var b := Update(d, l)[name := val];
    assert a.Keys == b.Keys;
    forall k | k in a
      ensures a[k] == b[k]
    {
    }
  }

  /** Setting a default shows through exactly when the context layer does not
      override that key. */
  lemma SetDefaultThenEffective<V>(st: ExtrasState<V>, key: string, value: V)
    ensures var eff := Effective(SetDefault(st, key, value));
      && key in eff
      && (key !in Layer(st) ==> eff[key] == value)
      && (key in Layer(st) ==> eff[key] == Layer(st)[key])
  {
  }
}
