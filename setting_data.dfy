/** The typed settings registry. Every setting has a name, a current value, a default
    value and an optional onSave callback. The C# class hierarchy (Setting<T> with
    overriding subclasses) becomes one Dafny class per concrete setting kind, each
    carrying the inherited Get / SetToDefault together with its own Set. The option,
    toggle and int slider also carry the inherited Apply; the button overrides Apply
    with an empty body and never writes the store.

    A callback is modelled by whether it is set (`hasOnSave`, C#'s `onSave != null`)
    and by the ghost log `saved` of every argument it has been invoked with, oldest
    first. What a particular callback does is up to the code that installs it. */
module SettingData {
  import opened Prefs
  import opened Mathf

  /** The invocations `onSave?.Invoke(v)` performs: one, with v, when a callback is set; none when it is null. */
  function Fired<T>(hasOnSave: bool, v: T): (r: seq<T>)
    ensures |r| <= 1
    ensures |r| == 1 <==> hasOnSave
    ensures forall x | x in r :: x == v
  {
    if hasOnSave then [v] else []
  }

  /** A drop-down choice: the value is an index into `options`, persisted as an int. */
  class OptionSetting {
    const name: string
    const store: PlayerPrefs
    const defaultValue: int
    const hasOnSave: bool
    var value: int
    var optionCount: nat  // only the number of option labels is modelled
    ghost var saved: seq<int>

    /** The constructor reads the stored int; the object initializer then supplies the rest. */
    constructor (name: string, store: PlayerPrefs, defaultValue: int, optionCount: nat, hasOnSave: bool)
      ensures this.name == name && this.store == store && this.defaultValue == defaultValue
      ensures this.optionCount == optionCount && this.hasOnSave == hasOnSave
      ensures value == GetInt(store.entries, name) && saved == []
    {
      this.name := name;
      this.store := store;
      this.defaultValue := defaultValue;
      this.optionCount := optionCount;
      this.hasOnSave := hasOnSave;
      value := GetInt(store.entries, name);
      saved := [];
    }

    /** Writes the int under the setting's name, stores it and fires the callback once. */
    method Set(v: int)
      modifies this`value, this`saved, store
      ensures store.entries == old(store.entries)[name := IntEntry(v)]
      ensures value == v
      ensures saved == old(saved) + Fired(hasOnSave, v)
    {
      store.SetInt(name, v);
      value := v;
      saved := saved + Fired(hasOnSave, v);
    }

    method SetToDefault()
      modifies this`value, this`saved, store
      ensures store.entries == old(store.entries)[name := IntEntry(defaultValue)]
      ensures value == defaultValue
      ensures saved == old(saved) + Fired(hasOnSave, defaultValue)
    {
      Set(defaultValue);
    }

    /** Returns the current value; when the store has no entry under the name, resets to the default first. */
    method Get() returns (v: int)
      modifies this`value, this`saved, store
      ensures v == value
      ensures old(HasKey(store.entries, name)) ==>
        value == old(value) && saved == old(saved) && store.entries == old(store.entries)
      ensures !old(HasKey(store.entries, name)) ==>
        value == defaultValue && saved == old(saved) + Fired(hasOnSave, defaultValue) &&
        store.entries == old(store.entries)[name := IntEntry(defaultValue)]
    {
      if !HasKey(store.entries, name) {
        SetToDefault();
      }
      v := value;
    }

    /** Re-reads the value and saves it again: one invocation when the key was present, two when absent. */
    method Apply()
      modifies this`value, this`saved, store
      ensures old(HasKey(store.entries, name)) ==>
        value == old(value) && saved == old(saved) + Fired(hasOnSave, old(value)) &&
        store.entries == old(store.entries)[name := IntEntry(old(value))]
      ensures !old(HasKey(store.entries, name)) ==>
        value == defaultValue &&
        saved == old(saved) + Fired(hasOnSave, defaultValue) + Fired(hasOnSave, defaultValue) &&
        store.entries == old(store.entries)[name := IntEntry(defaultValue)]
    {
      var v := Get();
      value := v;
      Set(value);
    }
  }

  /** An on/off switch persisted as the int 1 (on) or 0 (off). */
  class ToggleSetting {
    const name: string
    const store: PlayerPrefs
    const defaultValue: bool
    const hasOnSave: bool
    var value: bool
    ghost var saved: seq<bool>

    /** The constructor reads the switch as on exactly when the stored int is 1. */
    constructor (name: string, store: PlayerPrefs, defaultValue: bool, hasOnSave: bool)
      ensures this.name == name && this.store == store && this.defaultValue == defaultValue
      ensures this.hasOnSave == hasOnSave
      ensures value == (GetInt(store.entries, name) == 1) && saved == []
    {
      this.name := name;
      this.store := store;
      this.defaultValue := defaultValue;
      this.hasOnSave := hasOnSave;
      value := GetInt(store.entries, name) == 1;
      saved := [];
    }

    method Set(b: bool)
      modifies this`value, this`saved, store
      ensures store.entries == old(store.entries)[name := IntEntry(if b then 1 else 0)]
      ensures GetInt(store.entries, name) == 1 <==> b
      ensures value == b
      ensures saved == old(saved) + Fired(hasOnSave, b)
    {
      store.SetInt(name, if b then 1 else 0);
      value := b;
      saved := saved + Fired(hasOnSave, b);
    }

    method SetToDefault()
      modifies this`value, this`saved, store
      ensures store.entries == old(store.entries)[name := IntEntry(if defaultValue then 1 else 0)]
      ensures value == defaultValue
      ensures saved == old(saved) + Fired(hasOnSave, defaultValue)
    {
      Set(defaultValue);
    }

    method Get() returns (v: bool)
      modifies this`value, this`saved, store
      ensures v == value
      ensures old(HasKey(store.entries, name)) ==>
        value == old(value) && saved == old(saved) && store.entries == old(store.entries)
      ensures !old(HasKey(store.entries, name)) ==>
        value == defaultValue && saved == old(saved) + Fired(hasOnSave, defaultValue) &&
        store.entries == old(store.entries)[name := IntEntry(if defaultValue then 1 else 0)]
    {
      if !HasKey(store.entries, name) {
        SetToDefault();
      }
      v := value;
    }

    method Apply()
      modifies this`value, this`saved, store
      ensures old(HasKey(store.entries, name)) ==>
        value == old(value) && saved == old(saved) + Fired(hasOnSave, old(value)) &&
        store.entries == old(store.entries)[name := IntEntry(if old(value) then 1 else 0)]
      ensures !old(HasKey(store.entries, name)) ==>
        value == defaultValue &&
        saved == old(saved) + Fired(hasOnSave, defaultValue) + Fired(hasOnSave, defaultValue) &&
        store.entries == old(store.entries)[name := IntEntry(if defaultValue then 1 else 0)]
    {
      var v := Get();
      value := v;
      Set(value);
    }
  }

  /** An int slider: Set clamps into [min, max] and writes the result through the FLOAT slot,
      while the constructor reads the INT slot. */
  class IntSliderSetting {
    const name: string
    const store: PlayerPrefs
    const defaultValue: int
    const hasOnSave: bool
    const min: int
    const max: int
    var value: int
    ghost var saved: seq<int>

    constructor (name: string, store: PlayerPrefs, min: int, max: int, defaultValue: int, hasOnSave: bool)
      ensures this.name == name && this.store == store && this.defaultValue == defaultValue
      ensures this.min == min && this.max == max && this.hasOnSave == hasOnSave
      ensures value == GetInt(store.entries, name) && saved == []
    {
      this.name := name;
      this.store := store;
      this.min := min;
      this.max := max;
      this.defaultValue := defaultValue;
      this.hasOnSave := hasOnSave;
      value := GetInt(store.entries, name);
      saved := [];
    }

    /** Stores the clamped value; the callback receives the clamped value too. The entry left in
        the store is a float, so the int slot the constructor reads gives 0. */
    method Set(v: int)
      modifies this`value, this`saved, store
      ensures value == Clamp(v, min, max)
      ensures min <= max ==> min <= value <= max
      ensures min <= v <= max ==> value == v
      ensures store.entries == old(store.entries)[name := FloatEntry(value as real)]
      ensures HasKey(store.entries, name) && GetInt(store.entries, name) == 0
      ensures saved == old(saved) + Fired(hasOnSave, value)
    {
      var c := Clamp(v, min, max);
      store.SetFloat(name, c as real);
      value := c;
      saved := saved + Fired(hasOnSave, c);
    }

    method SetToDefault()
      modifies this`value, this`saved, store
      ensures value == Clamp(defaultValue, min, max)
      ensures store.entries == old(store.entries)[name := FloatEntry(value as real)]
      ensures saved == old(saved) + Fired(hasOnSave, value)
    {
      Set(defaultValue);
    }

    method Get() returns (v: int)
      modifies this`value, this`saved, store
      ensures v == value
      ensures old(HasKey(store.entries, name)) ==>
        value == old(value) && saved == old(saved) && store.entries == old(store.entries)
      ensures !old(HasKey(store.entries, name)) ==>
        value == Clamp(defaultValue, min, max) && saved == old(saved) + Fired(hasOnSave, value) &&
        store.entries == old(store.entries)[name := FloatEntry(value as real)]
    {
      if !HasKey(store.entries, name) {
        SetToDefault();
      }
      v := value;
    }

    /** Apply re-saves through Set, so the value is clamped on the way; with min <= max the
        default, once clamped, is not moved by the second clamp. */
    method Apply()
      modifies this`value, this`saved, store
      ensures old(HasKey(store.entries, name)) ==>
        value == Clamp(old(value), min, max) && saved == old(saved) + Fired(hasOnSave, value) &&
        store.entries == old(store.entries)[name := FloatEntry(value as real)]
      ensures !old(HasKey(store.entries, name)) ==>
        value == Clamp(Clamp(defaultValue, min, max), min, max) &&
        saved == old(saved) + Fired(hasOnSave, Clamp(defaultValue, min, max)) + Fired(hasOnSave, value) &&
        store.entries == old(store.entries)[name := FloatEntry(value as real)]
      ensures !old(HasKey(store.entries, name)) && min <= max ==> value == Clamp(defaultValue, min, max)
    {
      var v := Get();
      value := v;
      Set(value);
    }
  }

  /** A C# delegate value: null, or some callable identified by `id`. */
  datatype Action = NoAction | Callback(id: nat)

  /** A push button. It never writes the store; Set fires the current callback and then clears it. */
  class ButtonSetting {
    const name: string
    const store: PlayerPrefs
    const defaultValue: Action
    var hasOnSave: bool
    var value: Action
    ghost var saved: seq<Action>

    /** The constructor body copies `defaultValue` before the object initializer assigns it, so the value starts null. */
    constructor (name: string, store: PlayerPrefs, defaultValue: Action, hasOnSave: bool)
      ensures this.name == name && this.store == store && this.defaultValue == defaultValue
      ensures this.hasOnSave == hasOnSave
      ensures value == NoAction && saved == []
    {
      this.name := name;
      this.store := store;
      this.defaultValue := defaultValue;
      this.hasOnSave := hasOnSave;
      value := NoAction;
      saved := [];
    }

    method Set(v: Action)
      modifies this`value, this`saved, this`hasOnSave
      ensures value == v
      ensures saved == old(saved) + Fired(old(hasOnSave), v)
      ensures !hasOnSave
    {
      value := v;
      saved := saved + Fired(hasOnSave, v);
      hasOnSave := false;
    }

    method SetToDefault()
      modifies this`value, this`saved, this`hasOnSave
      ensures value == defaultValue
      ensures saved == old(saved) + Fired(old(hasOnSave), defaultValue)
      ensures !hasOnSave
    {
      Set(defaultValue);
    }

    /** Get still consults the store: a button's own name is never written, so unless another
        setting shares it, every Get resets the value to the default. */
    method Get() returns (v: Action)
      modifies this`value, this`saved, this`hasOnSave
      ensures v == value
      ensures HasKey(store.entries, name) ==>
        value == old(value) && saved == old(saved) && hasOnSave == old(hasOnSave)
      ensures !HasKey(store.entries, name) ==>
        value == defaultValue && saved == old(saved) + Fired(old(hasOnSave), defaultValue) && !hasOnSave
    {
      if !HasKey(store.entries, name) {
        SetToDefault();
      }
      v := value;
    }

    /** Overridden to do nothing. */
    method Apply()
      ensures unchanged(this) && unchanged(store)
    {
    }
  }

  /** Setting an option and constructing a new option setting with the same name reads the value back. */
  method OptionRoundTrip(store: PlayerPrefs, name: string, v: int, defaultValue: int, optionCount: nat, hasOnSave: bool)
    returns (reloaded: OptionSetting)
    modifies store
    ensures reloaded.name == name && reloaded.value == v
  {
    var s := new OptionSetting(name, store, defaultValue, optionCount, hasOnSave);
    s.Set(v);
    reloaded := new OptionSetting(name, store, defaultValue, optionCount, hasOnSave);
  }

  /** A switch set to b and reconstructed under the same name reads back b, through the `== 1` test. */
  method ToggleRoundTrip(store: PlayerPrefs, name: string, b: bool, defaultValue: bool, hasOnSave: bool)
    returns (reloaded: ToggleSetting)
    modifies store
    ensures reloaded.name == name && reloaded.value == b
  {
    var s := new ToggleSetting(name, store, defaultValue, hasOnSave);
    s.Set(b);
    reloaded := new ToggleSetting(name, store, defaultValue, hasOnSave);
  }

  /** An int slider does not round-trip: after Set, a reconstructed slider reads 0 from the
      int slot, and since the key is now present, Get keeps that 0 instead of the default. */
  method IntSliderReload(store: PlayerPrefs, name: string, v: int, min: int, max: int, defaultValue: int, hasOnSave: bool)
    returns (reloaded: IntSliderSetting, got: int)
    modifies store
    ensures reloaded.name == name && got == 0 && reloaded.value == 0
  {
    var s := new IntSliderSetting(name, store, min, max, defaultValue, hasOnSave);
    s.Set(v);
    reloaded := new IntSliderSetting(name, store, min, max, defaultValue, hasOnSave);
    got := reloaded.Get();
  }

  /** A button's callback fires at most once however many times Set is called. */
  method PressTwice(button: ButtonSetting, a: Action, b: Action)
    modifies button
    ensures button.saved == old(button.saved) + Fired(old(button.hasOnSave), a)
  {
    button.Set(a);
    button.Set(b);
  }
}
