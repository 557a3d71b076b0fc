/** The display part of the settings manager: the resolution bookkeeping, the start-up
    set-up of the "Resolution" and "Refresh Rate" drop-downs, and the two callbacks that
    push the chosen mode to the screen. Screen.resolutions is an input; each call of
    Screen.SetResolution is recorded, in order, in `applied`. */
module DisplayManager {
  import opened Prefs
  import opened Mathf
  import opened SettingData
  import opened ResolutionData

  datatype Option<T> = None | Some(value: T)

  /** The requests an optional request contributes to the log: none or one. */
  function AsSeq<T>(o: Option<T>): seq<T> {
    if o.Some? then [o.value] else []
  }

  datatype FullScreenMode = ExclusiveFullScreen | FullScreenWindow | MaximizedWindow | Windowed

  /** One call Screen.SetResolution(width, height, mode, rate). */
  datatype ScreenRequest = ScreenRequest(width: int, height: int, mode: FullScreenMode, rate: RefreshRate)

  const ResolutionName := "Resolution"
  const RefreshRateName := "Refresh Rate"

  /** `HasKey(key) ? GetInt(key) : fallback`: how both the set-up and the refresh-rate callback read the stored resolution index. */
  function StoredOr(entries: map<string, Entry>, key: string, fallback: int): (r: int)
    ensures key !in entries ==> r == fallback
    ensures key in entries && entries[key].IntEntry? ==> r == entries[key].i
    ensures key in entries && entries[key].FloatEntry? ==> r == 0
  {
    if HasKey(entries, key) then GetInt(entries, key) else fallback
  }

  /** The resolution index the set-up starts from: the stored index, or the last one when none
      is stored, clamped into [0, count - 1]. */
  function StartIndex(entries: map<string, Entry>, count: int): (idx: int)
    ensures count > 0 ==> 0 <= idx < count
    ensures count > 0 && HasKey(entries, ResolutionName) && 0 <= GetInt(entries, ResolutionName) < count ==>
      idx == GetInt(entries, ResolutionName)
    ensures count > 0 && !HasKey(entries, ResolutionName) ==> idx == count - 1
    ensures count > 0 && HasKey(entries, ResolutionName) && GetInt(entries, ResolutionName) >= count ==> idx == count - 1
    ensures count > 0 && HasKey(entries, ResolutionName) && GetInt(entries, ResolutionName) < 0 ==> idx == 0
  {
    Clamp(StoredOr(entries, ResolutionName, count - 1), 0, count - 1)
  }

  /** The mode the "Resolution" callback applies for index i: that resolution at the LAST rate
      listed for it. None where the C# code throws (index out of range, missing key, Last() of an empty list). */
  function ResolutionRequest(resolutions: seq<Resolution>, legal: map<ResKey, seq<RefreshRate>>,
                             mode: FullScreenMode, i: int): (req: Option<ScreenRequest>)
    ensures req.Some? <==>
      0 <= i < |resolutions| && KeyOf(resolutions[i]) in legal && |legal[KeyOf(resolutions[i])]| > 0
    ensures req.Some? ==>
      var rates := legal[KeyOf(resolutions[i])];
      req.value == ScreenRequest(resolutions[i].width, resolutions[i].height, mode, rates[|rates| - 1])
  {
    if !(0 <= i < |resolutions|) then None
    else
      var res := resolutions[i];
      var key := KeyOf(res);
      if key !in legal || legal[key] == [] then None
      else Some(ScreenRequest(res.width, res.height, mode, legal[key][|legal[key]| - 1]))
  }

  /** The mode the "Refresh Rate" callback applies for index i: the resolution at the stored index
      (NOT clamped), at its i-th rate. None where the C# code throws. */
  function RefreshRequest(resolutions: seq<Resolution>, legal: map<ResKey, seq<RefreshRate>>,
                          mode: FullScreenMode, entries: map<string, Entry>, i: int): (req: Option<ScreenRequest>)
    ensures var idx := StoredOr(entries, ResolutionName, |resolutions| - 1);
      req.Some? <==>
        0 <= idx < |resolutions| && KeyOf(resolutions[idx]) in legal && 0 <= i < |legal[KeyOf(resolutions[idx])]|
    ensures var idx := StoredOr(entries, ResolutionName, |resolutions| - 1);
      req.Some? ==>
        req.value == ScreenRequest(resolutions[idx].width, resolutions[idx].height, mode, legal[KeyOf(resolutions[idx])][i])
  {
    var idx := StoredOr(entries, ResolutionName, |resolutions| - 1);
    if !(0 <= idx < |resolutions|) then None
    else
      var res := resolutions[idx];
      var key := KeyOf(res);
      if key !in legal || !(0 <= i < |legal[key]|) then None
      else Some(ScreenRequest(res.width, res.height, mode, legal[key][i]))
  }

  /** Over the containers built from a report, the "Resolution" callback succeeds exactly for
      the indices of the list, and it only applies a mode the screen reported. */
  lemma ResolutionRequestSpec(rs: seq<Resolution>, mode: FullScreenMode, i: int)
    ensures var req := ResolutionRequest(FirstOccurrences(rs), RateMap(rs), mode, i);
      (req.Some? <==> 0 <= i < |FirstOccurrences(rs)|) &&
      (req.Some? ==> Resolution(req.value.width, req.value.height, req.value.rate) in rs)
  {
    GroupingConsistent(rs);
    var res := FirstOccurrences(rs);
    if 0 <= i < |res| {
      var key := KeyOf(res[i]);
      RatesForSound(rs, key, |RatesFor(rs, key)| - 1);
    }
  }

  /** Over the containers built from a report, the "Refresh Rate" callback succeeds exactly when
      the stored resolution index is in range and i indexes that resolution's rates, and it only
      applies a mode the screen reported. */
  lemma RefreshRequestSpec(rs: seq<Resolution>, mode: FullScreenMode, entries: map<string, Entry>, i: int)
    ensures var res := FirstOccurrences(rs);
      var idx := StoredOr(entries, ResolutionName, |res| - 1);
      var req := RefreshRequest(res, RateMap(rs), mode, entries, i);
      (req.Some? <==> 0 <= idx < |res| && 0 <= i < |RatesFor(rs, KeyOf(res[idx]))|) &&
      (req.Some? ==> Resolution(req.value.width, req.value.height, req.value.rate) in rs)
  {
    GroupingConsistent(rs);
    var res := FirstOccurrences(rs);
    var idx := StoredOr(entries, ResolutionName, |res| - 1);
    if 0 <= idx < |res| {
      var key := KeyOf(res[idx]);
      if 0 <= i < |RatesFor(rs, key)| {
        RatesForSound(rs, key, i);
      }
    }
  }

  /** The set-up clamps a stored index that is too large, but the "Refresh Rate" callback reads
      the same stored index without the clamp and throws for it. */
  lemma RefreshLacksClamp(res: seq<Resolution>, legal: map<ResKey, seq<RefreshRate>>,
                          mode: FullScreenMode, entries: map<string, Entry>, i: int)
    requires HasKey(entries, ResolutionName) && GetInt(entries, ResolutionName) >= |res| > 0
    ensures 0 <= StartIndex(entries, |res|) < |res|
    ensures RefreshRequest(res, legal, mode, entries, i) == None
  {
  }

  /** Once the "Resolution" callback has stored index i, the "Refresh Rate" callback it triggers
      with the last rate index applies the very mode the "Resolution" callback applied. */
  lemma ResolutionThenRefreshAgree(rs: seq<Resolution>, mode: FullScreenMode, entries: map<string, Entry>, i: int)
    requires 0 <= i < |FirstOccurrences(rs)|
    ensures KeyOf(FirstOccurrences(rs)[i]) in RateMap(rs)
    ensures var res, legal := FirstOccurrences(rs), RateMap(rs);
      var after := entries[ResolutionName := IntEntry(i)][RefreshRateName := IntEntry(|legal[KeyOf(res[i])]| - 1)];
      ResolutionRequest(res, legal, mode, i).Some? &&
      RefreshRequest(res, legal, mode, after, |legal[KeyOf(res[i])]| - 1) == ResolutionRequest(res, legal, mode, i)
  {
    GroupingConsistent(rs);
    var res, legal := FirstOccurrences(rs), RateMap(rs);
    var n := |legal[KeyOf(res[i])]|;
    var after := entries[ResolutionName := IntEntry(i)][RefreshRateName := IntEntry(n - 1)];
    assert ResolutionName != RefreshRateName;
    assert StoredOr(after, ResolutionName, |res| - 1) == i;
  }

  /** The static state of SettingManager that the display settings use. */
  class SettingManager {
    const store: PlayerPrefs
    const fullScreenMode: FullScreenMode
    var resolutions: seq<Resolution>
    var legalRefreshRates: map<ResKey, seq<RefreshRate>>
    ghost var reported: seq<Resolution>  // the Screen.resolutions the containers were last built from
    var applied: seq<ScreenRequest>      // every Screen.SetResolution call, oldest first
    var refreshRateSetting: OptionSetting?
    var resolutionSetting: OptionSetting?

    /** The two containers are the grouping of the last report, so every listed resolution has rates. */
    ghost predicate Grouped()
      reads this
    {
      resolutions == FirstOccurrences(reported) && legalRefreshRates == RateMap(reported) &&
      Consistent(resolutions, legalRefreshRates)
    }

    /** The state after a successful set-up: both drop-downs exist, are distinct, share the store and carry their callbacks. */
    ghost predicate Valid()
      reads this
    {
      Grouped() &&
      refreshRateSetting != null && resolutionSetting != null && refreshRateSetting != resolutionSetting &&
      refreshRateSetting.store == store && resolutionSetting.store == store &&
      refreshRateSetting.name == RefreshRateName && resolutionSetting.name == ResolutionName &&
      refreshRateSetting.hasOnSave && resolutionSetting.hasOnSave
    }

    /** The static initializers: empty containers, full-screen-window mode. */
    constructor (store: PlayerPrefs)
      ensures this.store == store && fullScreenMode == FullScreenWindow
      ensures Grouped() && reported == [] && resolutions == [] && legalRefreshRates == map[]
      ensures applied == [] && refreshRateSetting == null && resolutionSetting == null
    {
      this.store := store;
      fullScreenMode := FullScreenWindow;
      resolutions := [];
      legalRefreshRates := map[];
      reported := [];
      applied := [];
      refreshRateSetting := null;
      resolutionSetting := null;
    }

    /** Clears both containers, then groups the report entry by entry. The result depends on
        the report alone, so running it twice on the same report changes nothing. */
    method UpdateResolutionData(screenResolutions: seq<Resolution>)
      modifies this`resolutions, this`legalRefreshRates, this`reported
      ensures reported == screenResolutions && Grouped()
      ensures |resolutions| > 0 <==> |screenResolutions| > 0
    {
      resolutions := [];
      legalRefreshRates := map[];
      for i := 0 to |screenResolutions|
        invariant resolutions == FirstOccurrences(screenResolutions[..i])
        invariant legalRefreshRates == RateMap(screenResolutions[..i])
      {
        var r := screenResolutions[i];
        var k := KeyOf(r);
        assert screenResolutions[..i + 1] == screenResolutions[..i] + [r];
        RateMapAppend(screenResolutions[..i], r);
        if k !in legalRefreshRates {
          resolutions := resolutions + [r];
          legalRefreshRates := legalRefreshRates[k := []];
        }
        legalRefreshRates := legalRefreshRates[k := legalRefreshRates[k] + [r.refreshRateRatio]];
      }
      assert screenResolutions[..|screenResolutions|] == screenResolutions;
      reported := screenResolutions;
      GroupingConsistent(screenResolutions);
      FirstOccurrencesNonEmpty(screenResolutions);
    }

    /** The start-up set-up: rebuild the containers, pick the start resolution, and create the
        two drop-downs with their option counts and last-index defaults. With an empty report
        the indexing of the start resolution throws and nothing is created. */
    method Test(screenResolutions: seq<Resolution>) returns (ok: bool)
      modifies this
      ensures reported == screenResolutions && Grouped()
      ensures applied == old(applied)
      ensures ok <==> |screenResolutions| > 0
      ensures !ok ==> refreshRateSetting == old(refreshRateSetting) && resolutionSetting == old(resolutionSetting)
      ensures ok ==> Valid() && fresh(refreshRateSetting) && fresh(resolutionSetting)
      ensures ok ==>
        var idx := StartIndex(store.entries, |resolutions|);
        0 <= idx < |resolutions| &&
        var rates := legalRefreshRates[KeyOf(resolutions[idx])];
        |rates| > 0 &&
        refreshRateSetting.optionCount == |rates| && refreshRateSetting.defaultValue == |rates| - 1 &&
        refreshRateSetting.value == GetInt(store.entries, RefreshRateName) && refreshRateSetting.saved == [] &&
        resolutionSetting.optionCount == |resolutions| && resolutionSetting.defaultValue == |resolutions| - 1 &&
        resolutionSetting.value == GetInt(store.entries, ResolutionName) && resolutionSetting.saved == []
    {
      UpdateResolutionData(screenResolutions);
      var idx := StoredOr(store.entries, ResolutionName, |resolutions| - 1);
      idx := Clamp(idx, 0, |resolutions| - 1);
      if !(0 <= idx < |resolutions|) {
        ok := false;  // resolutions[idx] throws
        return;
      }
      var res := resolutions[idx];
      var key := KeyOf(res);
      var rates := legalRefreshRates[key];
      refreshRateSetting := new OptionSetting(RefreshRateName, store, |rates| - 1, |rates|, true);
      resolutionSetting := new OptionSetting(ResolutionName, store, |resolutions| - 1, |resolutions|, true);
      ok := true;
    }

    /** The body of the "Refresh Rate" callback for index i (the C# closure at lines 88-96). */
    method RefreshRateSaved(i: int) returns (ok: bool)
      modifies this`applied
      ensures var req := RefreshRequest(resolutions, legalRefreshRates, fullScreenMode, store.entries, i);
        ok == req.Some? && applied == old(applied) + AsSeq(req)
    {
      var idx := StoredOr(store.entries, ResolutionName, |resolutions| - 1);
      if !(0 <= idx < |resolutions|) {
        return false;  // resolutions[idx] throws
      }
      var res := resolutions[idx];
      var key := KeyOf(res);
      if key !in legalRefreshRates || !(0 <= i < |legalRefreshRates[key]|) {
        return false;  // the dictionary or list lookup throws
      }
      var hz := legalRefreshRates[key][i];
      applied := applied + [ScreenRequest(res.width, res.height, fullScreenMode, hz)];
      ok := true;
    }

    /** The body of the "Resolution" callback for index i: apply that resolution at its last
        rate, then reset the "Refresh Rate" drop-down to that resolution's rates and select the
        last one, which runs the refresh-rate callback in turn. */
    method ResolutionSaved(i: int) returns (ok: bool)
      requires Valid()
      modifies this`applied, refreshRateSetting, store
      ensures Valid()
      ensures var req := ResolutionRequest(resolutions, legalRefreshRates, fullScreenMode, i);
        req.None? ==>
          !ok && applied == old(applied) && store.entries == old(store.entries) &&
          refreshRateSetting.value == old(refreshRateSetting.value) &&
          refreshRateSetting.optionCount == old(refreshRateSetting.optionCount) &&
          refreshRateSetting.saved == old(refreshRateSetting.saved)
      ensures var req := ResolutionRequest(resolutions, legalRefreshRates, fullScreenMode, i);
        req.Some? ==>
          var n := |legalRefreshRates[KeyOf(resolutions[i])]|;
          var follow := RefreshRequest(resolutions, legalRefreshRates, fullScreenMode, store.entries, n - 1);
          refreshRateSetting.optionCount == n && refreshRateSetting.value == n - 1 &&
          refreshRateSetting.saved == old(refreshRateSetting.saved) + [n - 1] &&
          store.entries == old(store.entries)[RefreshRateName := IntEntry(n - 1)] &&
          applied == old(applied) + [req.value] + AsSeq(follow) && ok == follow.Some?
    {
      GroupingConsistent(reported);
      if !(0 <= i < |resolutions|) {
        return false;  // resolutions[i] throws
      }
      var res := resolutions[i];
      var key := KeyOf(res);
      var rates := legalRefreshRates[key];
      var hz := rates[|rates| - 1];
      applied := applied + [ScreenRequest(res.width, res.height, fullScreenMode, hz)];
      refreshRateSetting.optionCount := |rates|;
      refreshRateSetting.Set(|rates| - 1);
      ok := RefreshRateSaved(|rates| - 1);
    }

    /** Choosing resolution i in the drop-down: the setting stores i and fires its callback. On
        success the screen receives the same mode twice, once from each callback, and that mode
        is one the screen reported. */
    method SelectResolution(i: int) returns (ok: bool)
      requires Valid()
      modifies this`applied, resolutionSetting`value, resolutionSetting`saved, refreshRateSetting, store
      ensures Valid()
      ensures resolutionSetting.value == i && resolutionSetting.saved == old(resolutionSetting.saved) + [i]
      ensures resolutionSetting.optionCount == old(resolutionSetting.optionCount)
      ensures ok <==> 0 <= i < |resolutions|
      ensures !ok ==>
        applied == old(applied) && store.entries == old(store.entries)[ResolutionName := IntEntry(i)] &&
        refreshRateSetting.value == old(refreshRateSetting.value) &&
        refreshRateSetting.optionCount == old(refreshRateSetting.optionCount) &&
        refreshRateSetting.saved == old(refreshRateSetting.saved)
      ensures ok ==>
        var rates := legalRefreshRates[KeyOf(resolutions[i])];
        var m := ScreenRequest(resolutions[i].width, resolutions[i].height, fullScreenMode, rates[|rates| - 1]);
        Resolution(m.width, m.height, m.rate) in reported &&
        applied == old(applied) + [m, m] &&
        refreshRateSetting.optionCount == |rates| && refreshRateSetting.value == |rates| - 1 &&
        refreshRateSetting.saved == old(refreshRateSetting.saved) + [|rates| - 1] &&
        store.entries == old(store.entries)[ResolutionName := IntEntry(i)][RefreshRateName := IntEntry(|rates| - 1)]
    {
      ResolutionRequestSpec(reported, fullScreenMode, i);
      if 0 <= i < |resolutions| {
        ResolutionThenRefreshAgree(reported, fullScreenMode, store.entries, i);
      }
      resolutionSetting.Set(i);
      ok := ResolutionSaved(i);
    }

    /** Choosing refresh-rate index i in the drop-down: the setting stores i and fires its callback,
        which applies the mode for the stored resolution index when both indices are in range. */
    method SelectRefreshRate(i: int) returns (ok: bool)
      requires Valid()
      modifies this`applied, refreshRateSetting`value, refreshRateSetting`saved, store
      ensures Valid()
      ensures refreshRateSetting.value == i && refreshRateSetting.saved == old(refreshRateSetting.saved) + [i]
      ensures refreshRateSetting.optionCount == old(refreshRateSetting.optionCount)
      ensures store.entries == old(store.entries)[RefreshRateName := IntEntry(i)]
      ensures var req := RefreshRequest(resolutions, legalRefreshRates, fullScreenMode, old(store.entries), i);
        ok == req.Some? && applied == old(applied) + AsSeq(req)
      ensures var idx := StoredOr(old(store.entries), ResolutionName, |resolutions| - 1);
        ok <==> 0 <= idx < |resolutions| && 0 <= i < |legalRefreshRates[KeyOf(resolutions[idx])]|
      ensures ok ==> Resolution(applied[|applied| - 1].width, applied[|applied| - 1].height, applied[|applied| - 1].rate) in reported
    {
      RefreshRequestSpec(reported, fullScreenMode, store.entries, i);
      assert ResolutionName != RefreshRateName;
      refreshRateSetting.Set(i);
      ok := RefreshRateSaved(i);
    }
  }
}
