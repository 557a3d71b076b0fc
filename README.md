# TMP_Option settings core, modelled in Dafny

This project models the three parts of the TMP_Option Unity project that work without the
engine:

- **The typed settings registry** (`SettingData`). A setting has a name, a value, a default value
  and an optional `onSave` callback. It persists itself in PlayerPrefs, Unity's key-value store
  (except the button, which only reads `HasKey`). The model has one class per concrete kind:
  option (an int index), toggle (a bool stored as 1 or 0), int slider (clamped, stored through
  the float slot) and button (fires its callback once). Each class has the inherited `Get` and
  `SetToDefault` and its own `Set`. The option, toggle and int slider also inherit `Apply`; the
  button overrides it to do nothing.
  PlayerPrefs is a class holding one map from key to a typed entry. An int entry and a float entry
  stay distinct: `GetInt` on a float entry gives 0. A callback is modelled by whether it is set,
  plus a ghost log of every argument it was invoked with; `Fired` gives what one
  `onSave?.Invoke(v)` adds to that log.
- **The resolution bookkeeping** (`SettingManager`). `UpdateResolutionData` groups the modes the
  screen reports into two containers:
  - the list of distinct resolutions, in the order each first appears;
  - a dictionary from each resolution to its refresh rates, in report order.

  The start-up routine `Test` picks a clamped start index and creates the "Resolution" and
  "Refresh Rate" drop-downs. The callbacks of those drop-downs choose the mode to apply.
  `Screen.resolutions` is an input sequence. Each `Screen.SetResolution` call is appended to a log.
- **The FPS counter** (`FPSDisplay.Update`). It adds one sample per frame. Every 60th frame it
  publishes the wrapped 32-bit total divided by 60, truncated toward zero, and resets both
  counters; this is the truncated average whenever the sum fits in an int. The label colour
  follows the vertical-sync count.

Files:
- `prefs.dfy`: the store (`Prefs`) and Unity's int clamp (`Mathf`).
- `setting_data.dfy`: the setting classes.
- `resolution_data.dfy`: the grouping specification and its lemmas.
- `setting_manager.dfy`: the manager class, the start-up routine and the callbacks.
- `fps_display.dfy`: the frame counter.

How some source behaviour is represented:

- A C# exception becomes an error result. Examples are an index out of range, a missing
  dictionary key, and `Last()` of an empty list. A request function returns `None`, or a method
  returns `ok == false`. Effects that happened before the throw are kept.
- The `"{w}x{h}"` dictionary key becomes the pair `ResKey(width, height)` (`KeyOf`). The string
  (`KeyString`) determines the pair, because `x` is neither a digit nor a sign
  (`KeyOfMatchesKeyString`).
- `_totalFPS` is a 32-bit C# int. Its wrap-around is written out (`Wrap32`).
- C# `/` truncates toward zero. It is written out as `TruncDiv`.

## Model

| member | source | states |
|---|---|---|
| `Mathf.Clamp` | Assets/Scripts/SettingData.cs:106 | With min <= max the result lies in [min, max] and equals the input when the input is already in range. Below min it gives min; above max (and not below min) it gives max. |
| `SettingData.OptionSetting.constructor` | Assets/Scripts/SettingData.cs:56-59 | The value starts as the int stored under the name (0 when absent); the log starts empty. |
| `SettingData.OptionSetting.Set` | Assets/Scripts/SettingData.cs:60-64 | The store maps the name to the int v and no other key changes. The value becomes v. The callback is invoked exactly once, with v, when one is set. |
| `SettingData.OptionSetting.SetToDefault` | Assets/Scripts/SettingData.cs:41-44 | The value and the stored int become the default; the callback receives the default. |
| `SettingData.OptionSetting.Get` | Assets/Scripts/SettingData.cs:27-35 | With the key present: returns the value and changes nothing. With the key absent: resets to the default, so the value is the default, the key is now present, and the callback fired once. |
| `SettingData.OptionSetting.Apply` | Assets/Scripts/SettingData.cs:45-49 | With the key present: the value is unchanged and is saved again with one invocation. With the key absent: the value becomes the default and the callback fires twice with it. |
| `SettingData.ToggleSetting.constructor` | Assets/Scripts/SettingData.cs:69-72 | The switch reads on exactly when the stored int is 1. |
| `SettingData.ToggleSetting.Set` | Assets/Scripts/SettingData.cs:73-77 | Stores 1 for on and 0 for off under the name, so the stored int is 1 iff b. The value becomes b and the callback fires once with b. |
| `SettingData.ToggleSetting.SetToDefault` | Assets/Scripts/SettingData.cs:41-44 | The value becomes the default and its 1/0 encoding is stored. |
| `SettingData.ToggleSetting.Get` | Assets/Scripts/SettingData.cs:27-35 | Same present/absent behaviour as the option setting, with the 1/0 encoding. |
| `SettingData.ToggleSetting.Apply` | Assets/Scripts/SettingData.cs:45-49 | One invocation with the unchanged value when the key is present; two with the default when it is absent. |
| `SettingData.IntSliderSetting.constructor` | Assets/Scripts/SettingData.cs:100-103 | The value starts as the int slot under the name. |
| `SettingData.IntSliderSetting.Set` | Assets/Scripts/SettingData.cs:104-109 | The value is v clamped into [min, max]: inside the bounds when min <= max, and equal to v when v is in range. The callback receives the clamped value. The store holds it as a float entry, so the int slot under that name now reads 0 although the key is present. |
| `SettingData.IntSliderSetting.SetToDefault` | Assets/Scripts/SettingData.cs:41-44 | The value becomes the clamped default, stored as a float entry. |
| `SettingData.IntSliderSetting.Get` | Assets/Scripts/SettingData.cs:27-35 | Key present: unchanged. Key absent: the clamped default, with one invocation. |
| `SettingData.IntSliderSetting.Apply` | Assets/Scripts/SettingData.cs:45-49 | Re-saving clamps again. Key present: the value becomes the clamped old value. Key absent: two invocations, and with min <= max the value is the clamped default. |
| `SettingData.ButtonSetting.constructor` | Assets/Scripts/SettingData.cs:116-119 | The value starts null, because the constructor body runs before the initializer supplies the default. |
| `SettingData.ButtonSetting.Set` | Assets/Scripts/SettingData.cs:120-124 | The value becomes v. The callback present beforehand is invoked at most once, with v. Afterwards no callback is set. |
| `SettingData.ButtonSetting.SetToDefault` | Assets/Scripts/SettingData.cs:41-44 | The value becomes the default; at most one invocation, then the callback is cleared. |
| `SettingData.ButtonSetting.Get` | Assets/Scripts/SettingData.cs:27-35 | A button never writes its key. So unless another setting stored that name, Get resets to the default, fires the callback at most once and clears it. |
| `SettingData.ButtonSetting.Apply` | Assets/Scripts/SettingData.cs:125 | Changes neither the setting nor the store. |
| `SettingData.OptionRoundTrip` | Assets/Scripts/SettingData.cs:56-64 | After Set(v), a new option setting with the same name reads back v. |
| `SettingData.ToggleRoundTrip` | Assets/Scripts/SettingData.cs:69-77 | After Set(b), a new toggle with the same name reads back b, through the `== 1` test. |
| `SettingData.IntSliderReload` | Assets/Scripts/SettingData.cs:100-109 | After Set(v), a new int slider with the same name reads 0, and Get keeps that 0 instead of the default: the value does not survive a reload. |
| `SettingData.PressTwice` | Assets/Scripts/SettingData.cs:120-124 | Two Sets in a row add at most one invocation, the first one's. |
| `SettingData.Fired` | Assets/Scripts/SettingData.cs:39 | `onSave?.Invoke(v)` invokes the callback at most once: exactly once, with v, when a callback is set, and never when it is null. |
| `ResolutionData.KeyOfMatchesKeyString` | Assets/Scripts/SettingManager.cs:35 | Two resolutions get the same `"{width}x{height}"` key (`KeyString`, decimal with a minus sign for negatives) exactly when they get the same `KeyOf` pair, so the pair can stand for the string key used at lines 35, 83, 92 and 106. |
| `ResolutionData.FirstOccurrencesKeys` | Assets/Scripts/SettingManager.cs:33-41 | The resolutions list holds exactly the keys of the report, and no two of its entries share a width and height. |
| `ResolutionData.FirstOccurrencesOrder` | Assets/Scripts/SettingManager.cs:33-41 | Entry j of the list is the first report entry with that key. The positions of those first entries strictly increase, so the list is in first-occurrence order. |
| `ResolutionData.FirstOccurrencesNonEmpty` | Assets/Scripts/SettingManager.cs:33-41 | The list is empty exactly when the report is. |
| `ResolutionData.RateMapAppend` | Assets/Scripts/SettingManager.cs:37-43 | Handling one more report entry appends its rate to its key's list, creating the list first when the key is new. |
| `ResolutionData.RatesForNonEmpty` | Assets/Scripts/SettingManager.cs:37-43 | Every key of the report has at least one rate. |
| `ResolutionData.RatesForSound` | Assets/Scripts/SettingManager.cs:43 | Every rate listed for a key was reported for that width and height. |
| `ResolutionData.GroupingConsistent` | Assets/Scripts/SettingManager.cs:37-43 | The dictionary's key set equals the key set of the resolutions list. Every listed resolution has a non-empty rate list. |
| `ResolutionData.TotalRatesCoversInput` | Assets/Scripts/SettingManager.cs:43 | The rate lists of all resolutions together are exactly as long as the report, so no entry is lost or duplicated. |
| `ResolutionData.GroupingSpec` | Assets/Scripts/SettingManager.cs:29-46 | All of the above together for the containers built from one report. |
| `DisplayManager.SettingManager.constructor` | Assets/Scripts/SettingManager.cs:16-18 | Both containers start empty; the mode is full-screen window. |
| `DisplayManager.SettingManager.UpdateResolutionData` | Assets/Scripts/SettingManager.cs:29-46 | The list and dictionary become the first occurrences and the per-key rates of the report. The clear at the start makes the result depend on the report alone, so a second run on the same report changes nothing. |
| `DisplayManager.StartIndex` | Assets/Scripts/SettingManager.cs:80-81 | With a non-empty list the start index is in range. It is the stored index when that is in range, the last index when nothing is stored, the last index when the stored one is too large, and 0 when the stored one is negative. |
| `DisplayManager.SettingManager.Test` | Assets/Scripts/SettingManager.cs:75-116 | Succeeds iff the report is non-empty (else indexing at line 82 throws). On success it creates two distinct drop-downs. The refresh-rate drop-down lists the start resolution's rates and defaults to the last of them. The resolution drop-down lists all resolutions and defaults to the last. Each value is the int stored under its name. |
| `DisplayManager.StoredOr` | Assets/Scripts/SettingManager.cs:80 | The stored int when the key holds an int entry, 0 when it holds a float entry, and the fallback when the key is absent. |
| `DisplayManager.ResolutionRequest` | Assets/Scripts/SettingManager.cs:105-109 | A mode is applied iff the index is in the list and its key has a non-empty rate list. The mode is that resolution's size at the last rate of its list. |
| `DisplayManager.RefreshRequest` | Assets/Scripts/SettingManager.cs:90-94 | A mode is applied iff the stored index (or the last index when nothing is stored) is in the list, with no clamp, and i indexes that resolution's rate list. The mode is that resolution's size at its i-th rate. |
| `DisplayManager.ResolutionRequestSpec` | Assets/Scripts/SettingManager.cs:103-109 | The "Resolution" callback applies a mode iff the index is within the list, and the mode it applies was reported by the screen. |
| `DisplayManager.RefreshRequestSpec` | Assets/Scripts/SettingManager.cs:88-94 | The "Refresh Rate" callback applies a mode iff the stored resolution index and i are both in range, and that mode was reported by the screen. |
| `DisplayManager.RefreshLacksClamp` | Assets/Scripts/SettingManager.cs:90-91 | A stored index at or beyond the list length is clamped by the start-up code, but makes the "Refresh Rate" callback throw. |
| `DisplayManager.ResolutionThenRefreshAgree` | Assets/Scripts/SettingManager.cs:103-112 | Once index i is stored, the refresh callback run with the last rate index applies the same mode as the resolution callback. |
| `DisplayManager.SettingManager.RefreshRateSaved` | Assets/Scripts/SettingManager.cs:88-96 | Appends the refresh callback's request to the log when it succeeds. Otherwise the log is unchanged. |
| `DisplayManager.SettingManager.ResolutionSaved` | Assets/Scripts/SettingManager.cs:103-114 | For a valid index it logs that resolution at its last rate. It then sets the refresh drop-down's option count to that resolution's rate count and its value to the last index, and runs the refresh callback. For an invalid index nothing changes. |
| `DisplayManager.SettingManager.SelectResolution` | Assets/Scripts/SettingManager.cs:100-116 | Choosing index i stores i and succeeds iff i is in range. On success the screen receives the same reported mode twice, and the refresh drop-down is reset to the last rate index. The resolution drop-down's option count is unchanged. |
| `DisplayManager.SettingManager.SelectRefreshRate` | Assets/Scripts/SettingManager.cs:85-98 | Choosing index i stores i. It succeeds iff the stored resolution index and i are in range, and then logs one reported mode. The drop-down's option count is unchanged. |
| `FrameCounter.Wrap32` | Assets/Scripts/FPSDisplay.cs:22 | The result is a 32-bit int congruent to the input modulo 2^32, and equal to it when the input already fits. |
| `FrameCounter.Wrap32Add` | Assets/Scripts/FPSDisplay.cs:22 | Accumulating into a wrapped total gives the wrap of the exact sum. |
| `FrameCounter.TruncDiv` | Assets/Scripts/FPSDisplay.cs:26 | The quotient rounds toward zero: for a >= 0, q*b <= a < (q+1)*b; for a < 0, (q-1)*b < a <= q*b. |
| `FrameCounter.SumBounds` | Assets/Scripts/FPSDisplay.cs:21-22 | Samples within [lo, hi] sum to between count*lo and count*hi. |
| `FrameCounter.AverageOfReading` | Assets/Scripts/FPSDisplay.cs:24-26 | Sixty samples in [lo, hi], with 0 <= lo and hi at most (2^31-1)/60, do not overflow the total. The published number is then the floor of their mean and lies in [lo, hi]. |
| `FrameCounter.FPSDisplay.constructor` | Assets/Scripts/FPSDisplay.cs:7-12 | The counters start at 0 with no samples held. |
| `FrameCounter.FPSDisplay.Update` | Assets/Scripts/FPSDisplay.cs:19-39 | Keeps 0 <= frameCount < 60, with the total equal to the wrapped sum of the samples since the last reading. On a 60th frame the text shows the wrapped 32-bit total of those 60 samples divided by 60, truncated toward zero, and both counters become 0. This is the truncated average when the sum fits in an int (`AverageOfReading`); once the sum overflows it is not (sixty samples of 2^30 wrap to 0). Otherwise the text is unchanged. The colour is the synced colour iff vSyncCount > 0, else the normal colour. |

## Left out

- `MoveWindowTask` and the "Monitor" setting (Assets/Scripts/SettingManager.cs:48-73, 119-142). They await an engine `AsyncOperation` and move windows between displays. Line 66 passes `display.width` as the height; that is not modelled.
- `SliderSetting` (Assets/Scripts/SettingData.cs:80-94). It clamps floats, and floating point is not modelled.
- SettingData.IntSliderSetting.Set: the float entry holds the exact value as a `real`. C# converts the int to a 32-bit float, which is exact only up to 2^24. Nothing in the core reads the float slot back, so no behaviour depends on the rounding.
- The base `Setting<T>` on its own. It is only ever used through its subclasses, which carry its `Get` and `SetToDefault`; the option, toggle and int slider also carry its `Apply`, which the button overrides with an empty body.
- The option labels. The `ToString("F2")` refresh-rate labels and the `"{w}x{h}"` resolution labels are reduced to their count (`optionCount`). `ButtonSetting.text` and the `"{n} FPS"` string formatting are not modelled; the label holds the number n.
- `forceUpdate` and everything in `SettingUI.cs`, `Section.cs` and `MainMenu.cs`. These are widget wiring.
- `QualitySettings.vSyncCount = 0` at line 77 of `SettingManager.cs`. It is a write to engine state; the FPS counter takes `vSyncCount` as an input.
- The `Initialize` routine that empties the four setting arrays, which the display settings never fill.
- `SSAOConfigurator.cs`, `SettingsMenu.cs` and `Example.cs`. They make engine and reflection calls only.
- How the per-frame sample is computed: `(int)Math.Round(1f / Time.unscaledDeltaTime)` is float arithmetic, so the sample is an Int32 input.
- Persistence across runs and the registry backend of PlayerPrefs. The store is one in-memory map.
- SettingData.OptionSetting.Set: setting values are unbounded ints rather than 32-bit ints. They are indices and small counts, so no value the code produces comes near the bound.
- DisplayManager.SettingManager.SelectResolution: the callback's effects are modelled by running the closure body right after `Set` logs the invocation. The body is not stored as a delegate.
- SettingData.OptionSetting.Get: for the "Resolution" and "Refresh Rate" drop-downs, the callback also fires through `Get` on a missing key, `SetToDefault` and `Apply` (Assets/Scripts/SettingData.cs:29-31, 43, 47-48). On those paths the model logs the invocation and writes the store, but does not run the closure body. So `applied` and the other drop-down stay unchanged, where the source would call `Screen.SetResolution` and reset the refresh drop-down. The closure bodies run only through `SelectResolution` and `SelectRefreshRate`. The impact is limited: `Test` is private (declared without an access modifier, Assets/Scripts/SettingManager.cs:75) and nothing in `SettingManager` calls it, and the two drop-downs are never registered in a settings list (`DisplaySettings` stays empty, Assets/Scripts/SettingManager.cs:23), so no UI reaches these paths.
