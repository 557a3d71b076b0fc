/** The bookkeeping over the display modes the screen reports: the list of distinct
    resolutions, in the order each first appears, and for each resolution the refresh
    rates reported for it, in report order. This module holds the specification; the
    in-place computation is SettingManager.UpdateResolutionData. */
module ResolutionData {

  /** Unity's RefreshRate: the ratio numerator / denominator in Hz, treated as an opaque value. */
  datatype RefreshRate = RefreshRate(numerator: nat, denominator: nat)

  /** One entry of Screen.resolutions. */
  datatype Resolution = Resolution(width: int, height: int, refreshRateRatio: RefreshRate)

  /** The dictionary key. The C# key is the string "{width}x{height}"; since 'x' is neither a
      digit nor a sign, that string determines the pair, so the pair stands for it here. */
  datatype ResKey = ResKey(width: int, height: int)

  function KeyOf(r: Resolution): ResKey {
    ResKey(r.width, r.height)
  }

  /** The decimal digits of n, most significant first, without leading zeros. */
  function Digits(n: nat): string
    decreases n
  {
    if n < 10 then ["0123456789"[n]] else Digits(n / 10) + ["0123456789"[n % 10]]
  }

  /** C#'s invariant-culture rendering of an int: a minus sign for negatives, then the digits. */
  function DecimalString(i: int): string {
    if i < 0 then "-" + Digits(-i) else Digits(i)
  }

  /** The dictionary key as C# writes it, "{width}x{height}". */
  function KeyString(width: int, height: int): string {
    DecimalString(width) + "x" + DecimalString(height)
  }

  predicate IsDigit(c: char) {
    '0' <= c <= '9'
  }

  lemma {:induction false} DigitsAreDigits(n: nat)
    ensures |Digits(n)| >= 1
    ensures n >= 10 ==> |Digits(n)| >= 2
    ensures forall j | 0 <= j < |Digits(n)| :: IsDigit(Digits(n)[j])
    decreases n
  {
    if n >= 10 {
      DigitsAreDigits(n / 10);
    }
  }

  lemma {:induction false} DigitsInjective(a: nat, b: nat)
    requires Digits(a) == Digits(b)
    ensures a == b
    decreases a
  {
    DigitsAreDigits(a);
    DigitsAreDigits(b);
    if a >= 10 && b >= 10 {
      var da, db := Digits(a), Digits(b);
      assert da[..|da| - 1] == Digits(a / 10);
      assert db[..|db| - 1] == Digits(b / 10);
      DigitsInjective(a / 10, b / 10);
      assert "0123456789"[a % 10] == da[|da| - 1] == db[|db| - 1] == "0123456789"[b % 10];
    }
  }

  lemma DecimalStringShape(i: int)
    ensures |DecimalString(i)| >= 1
    ensures (DecimalString(i)[0] == '-') <==> i < 0
    ensures forall j | 0 <= j < |DecimalString(i)| :: DecimalString(i)[j] != 'x'
  {
    if i < 0 {
      DigitsAreDigits(-i);
      assert forall j | 1 <= j < |DecimalString(i)| :: DecimalString(i)[j] == Digits(-i)[j - 1];
    } else {
      DigitsAreDigits(i);
    }
  }

  lemma DecimalStringInjective(a: int, b: int)
    requires DecimalString(a) == DecimalString(b)
    ensures a == b
  {
    DecimalStringShape(a);
    DecimalStringShape(b);
    if a < 0 {
      assert Digits(-a) == DecimalString(a)[1..] == DecimalString(b)[1..] == Digits(-b);
      DigitsInjective(-a, -b);
    } else {
      DigitsInjective(a, b);
    }
  }

  /** The pair stands for the string key: two resolutions get the same C# key exactly when
      they get the same ResKey, because the 'x' separator occurs in neither number. */
  lemma KeyOfMatchesKeyString(r: Resolution, s: Resolution)
    ensures KeyOf(r) == KeyOf(s) <==> KeyString(r.width, r.height) == KeyString(s.width, s.height)
  {
    var a1, b1 := DecimalString(r.width), DecimalString(r.height);
    var a2, b2 := DecimalString(s.width), DecimalString(s.height);
    if KeyString(r.width, r.height) == KeyString(s.width, s.height) {
      var t := a1 + "x" + b1;
      assert t == a2 + "x" + b2;
      DecimalStringShape(r.width);
      DecimalStringShape(s.width);
      // The separator sits at index |a1| and at index |a2|, and neither number holds an 'x'.
      assert forall j | 0 <= j < |a1| :: t[j] == a1[j];
      assert forall j | 0 <= j < |a2| :: t[j] == a2[j];
      assert t[|a1|] == 'x' && t[|a2|] == 'x';
      assert |a1| == |a2|;
      assert a1 == t[..|a1|] == a2;
      assert b1 == t[|a1| + 1..] == b2;
      DecimalStringInjective(r.width, s.width);
      DecimalStringInjective(r.height, s.height);
    }
  }

  function KeySet(rs: seq<Resolution>): set<ResKey> {
    set r | r in rs :: KeyOf(r)
  }

  /** No two entries share a width and height. */
  ghost predicate DistinctKeys(res: seq<Resolution>) {
    forall i, j :: 0 <= i < j < |res| ==> KeyOf(res[i]) != KeyOf(res[j])
  }

  /** The entries of rs whose key has not appeared before, in order: the `resolutions` list. */
  function FirstOccurrences(rs: seq<Resolution>): seq<Resolution> {
    if rs == [] then []
    else
      var init, last := rs[..|rs| - 1], rs[|rs| - 1];
      if KeyOf(last) in KeySet(init) then FirstOccurrences(init) else FirstOccurrences(init) + [last]
  }

  /** The refresh rates of the entries of rs with key k, in the order of rs. */
  function RatesFor(rs: seq<Resolution>, k: ResKey): seq<RefreshRate> {
    if rs == [] then []
    else
      var init, last := rs[..|rs| - 1], rs[|rs| - 1];
      RatesFor(init, k) + if KeyOf(last) == k then [last.refreshRateRatio] else []
  }

  /** The `legalRefreshRates` dictionary: every key of rs, mapped to its rates. */
  function RateMap(rs: seq<Resolution>): map<ResKey, seq<RefreshRate>> {
    map k | k in KeySet(rs) :: RatesFor(rs, k)
  }

  /** The index of the first entry of rs with key k, or |rs| when there is none. */
  function FirstIndex(rs: seq<Resolution>, k: ResKey): (r: nat)
    ensures r <= |rs|
    ensures r < |rs| ==> KeyOf(rs[r]) == k
    ensures forall j :: 0 <= j < r ==> KeyOf(rs[j]) != k
    ensures r < |rs| <==> k in KeySet(rs)
  {
    if rs == [] then 0
    else if KeyOf(rs[0]) == k then 0
    else 1 + FirstIndex(rs[1..], k)
  }

  /** The sum, over the resolutions of res, of the number of rates m lists for each. */
  function TotalRates(res: seq<Resolution>, m: map<ResKey, seq<RefreshRate>>): nat {
    if res == [] then 0
    else
      var init, last := res[..|res| - 1], res[|res| - 1];
      TotalRates(init, m) + if KeyOf(last) in m then |m[KeyOf(last)]| else 0
  }

  /** What the code that indexes these containers relies on: every listed resolution has a
      non-empty list of rates. */
  ghost predicate Consistent(res: seq<Resolution>, m: map<ResKey, seq<RefreshRate>>) {
    forall j :: 0 <= j < |res| ==> KeyOf(res[j]) in m && |m[KeyOf(res[j])]| > 0
  }

  lemma KeySetAppend(init: seq<Resolution>, last: Resolution)
    ensures KeySet(init + [last]) == KeySet(init) + {KeyOf(last)}
  {
    var rs := init + [last];
    forall k | k in KeySet(rs) ensures k in KeySet(init) + {KeyOf(last)} {
      var r :| r in rs && KeyOf(r) == k;
      if r != last {
        var j :| 0 <= j < |rs| && rs[j] == r;
        assert init[j] == r;
      }
    }
    assert last == rs[|init|];
    forall k | k in KeySet(init) ensures k in KeySet(rs) {
      var r :| r in init && KeyOf(r) == k;
      var j :| 0 <= j < |init| && init[j] == r;
      assert rs[j] == r;
    }
  }

  /** One step of the loop: the dictionary after one more entry. */
  lemma RateMapAppend(init: seq<Resolution>, last: Resolution)
    ensures var k := KeyOf(last);
      RateMap(init + [last]) ==
        RateMap(init)[k := (if k in RateMap(init) then RateMap(init)[k] else []) + [last.refreshRateRatio]]
  {
    var rs, k := init + [last], KeyOf(last);
    assert rs[..|rs| - 1] == init;
    KeySetAppend(init, last);
    var m0, m1 := RateMap(init), RateMap(rs);
    var v := (if k in m0 then m0[k] else []) + [last.refreshRateRatio];
    assert m1.Keys == m0[k := v].Keys;
    forall k' | k' in m1 ensures m1[k'] == m0[k := v][k'] {
      if k' == k && k !in KeySet(init) {
        RatesForAbsent(init, k);
      }
    }
  }

  lemma {:induction false} RatesForAbsent(rs: seq<Resolution>, k: ResKey)
    requires k !in KeySet(rs)
    ensures RatesFor(rs, k) == []
  {
    if rs != [] {
      var init, last := rs[..|rs| - 1], rs[|rs| - 1];
      assert rs == init + [last];
      KeySetAppend(init, last);
      RatesForAbsent(init, k);
    }
  }

  /** The resolutions list holds exactly the input's keys, each once. */
  lemma {:induction false} FirstOccurrencesKeys(rs: seq<Resolution>)
    ensures KeySet(FirstOccurrences(rs)) == KeySet(rs)
    ensures DistinctKeys(FirstOccurrences(rs))
  {
    if rs != [] {
      var init, last := rs[..|rs| - 1], rs[|rs| - 1];
      assert rs == init + [last];
      FirstOccurrencesKeys(init);
      KeySetAppend(init, last);
      var fo := FirstOccurrences(init);
      if KeyOf(last) !in KeySet(init) {
        KeySetAppend(fo, last);
        var fo' := fo + [last];
        forall i, j | 0 <= i < j < |fo'| ensures KeyOf(fo'[i]) != KeyOf(fo'[j]) {
          if j == |fo| {
            assert fo'[i] in fo;
          }
        }
      }
    }
  }

  /** The resolutions list is empty exactly when the report is. */
  lemma FirstOccurrencesNonEmpty(rs: seq<Resolution>)
    ensures |FirstOccurrences(rs)| > 0 <==> |rs| > 0
  {
    if rs != [] {
      FirstOccurrencesKeys(rs);
      assert rs[0] in rs;
      assert KeyOf(rs[0]) in KeySet(FirstOccurrences(rs));
    }
  }

  lemma {:induction false} FirstIndexAppend(init: seq<Resolution>, last: Resolution, k: ResKey)
    requires k in KeySet(init)
    ensures FirstIndex(init + [last], k) == FirstIndex(init, k)
  {
    var a, b := FirstIndex(init + [last], k), FirstIndex(init, k);
    assert (init + [last])[b] == init[b];
    assert forall j :: 0 <= j < b ==> (init + [last])[j] == init[j];
  }

  /** fo lists the first occurrences of the keys of rs in input order: the j-th entry of fo is
      the first entry of rs with its key, and those first positions strictly increase. */
  ghost predicate FirstOccurrenceList(fo: seq<Resolution>, rs: seq<Resolution>) {
    (forall j :: 0 <= j < |fo| ==>
       FirstIndex(rs, KeyOf(fo[j])) < |rs| && fo[j] == rs[FirstIndex(rs, KeyOf(fo[j]))]) &&
    (forall i, j :: 0 <= i < j < |fo| ==> FirstIndex(rs, KeyOf(fo[i])) < FirstIndex(rs, KeyOf(fo[j])))
  }

  lemma FirstIndexNew(init: seq<Resolution>, last: Resolution)
    requires KeyOf(last) !in KeySet(init)
    ensures FirstIndex(init + [last], KeyOf(last)) == |init|
  {
    var rs := init + [last];
    forall j | 0 <= j < |init| ensures KeyOf(rs[j]) != KeyOf(last) {
      assert rs[j] == init[j] && init[j] in init;
    }
  }

  /** The resolutions list keeps the input's first occurrences, in input order. */
  lemma {:induction false} FirstOccurrencesOrder(rs: seq<Resolution>)
    ensures FirstOccurrenceList(FirstOccurrences(rs), rs)
  {
    if rs != [] {
      var init, last := rs[..|rs| - 1], rs[|rs| - 1];
      assert rs == init + [last];
      FirstOccurrencesOrder(init);
      FirstOccurrencesKeys(init);
      var fo := FirstOccurrences(init);
      forall j | 0 <= j < |fo|
        ensures FirstIndex(rs, KeyOf(fo[j])) == FirstIndex(init, KeyOf(fo[j])) < |init|
        ensures fo[j] == rs[FirstIndex(rs, KeyOf(fo[j]))]
      {
        assert fo[j] in fo;
        FirstIndexAppend(init, last, KeyOf(fo[j]));
      }
      if KeyOf(last) in KeySet(init) {
        assert FirstOccurrences(rs) == fo;
      } else {
        FirstIndexNew(init, last);
        var fo' := fo + [last];
        assert FirstOccurrences(rs) == fo';
        forall j | 0 <= j < |fo'|
          ensures FirstIndex(rs, KeyOf(fo'[j])) < |rs| && fo'[j] == rs[FirstIndex(rs, KeyOf(fo'[j]))]
        {
          if j < |fo| {
            assert fo'[j] == fo[j];
          }
        }
        forall i, j | 0 <= i < j < |fo'|
          ensures FirstIndex(rs, KeyOf(fo'[i])) < FirstIndex(rs, KeyOf(fo'[j]))
        {
          assert fo'[i] == fo[i];
          if j < |fo| {
            assert fo'[j] == fo[j];
          }
        }
      }
    }
  }

  /** Every listed key has at least one rate. */
  lemma {:induction false} RatesForNonEmpty(rs: seq<Resolution>, k: ResKey)
    requires k in KeySet(rs)
    ensures |RatesFor(rs, k)| > 0
  {
    var init, last := rs[..|rs| - 1], rs[|rs| - 1];
    assert rs == init + [last];
    KeySetAppend(init, last);
    if KeyOf(last) != k {
      RatesForNonEmpty(init, k);
    }
  }

  /** Every rate listed for a key was reported, by the input, for that width and height. */
  lemma {:induction false} RatesForSound(rs: seq<Resolution>, k: ResKey, j: nat)
    requires j < |RatesFor(rs, k)|
    ensures Resolution(k.width, k.height, RatesFor(rs, k)[j]) in rs
  {
    var init, last := rs[..|rs| - 1], rs[|rs| - 1];
    assert rs == init + [last];
    if j < |RatesFor(init, k)| {
      RatesForSound(init, k, j);
    } else {
      assert last == Resolution(k.width, k.height, RatesFor(rs, k)[j]);
    }
  }

  /** The dictionary's key set is exactly the key set of the resolutions list, and the two
      containers agree wherever the code looks up one from the other. */
  lemma GroupingConsistent(rs: seq<Resolution>)
    ensures RateMap(rs).Keys == KeySet(FirstOccurrences(rs))
    ensures Consistent(FirstOccurrences(rs), RateMap(rs))
  {
    FirstOccurrencesKeys(rs);
    var fo := FirstOccurrences(rs);
    forall j | 0 <= j < |fo| ensures KeyOf(fo[j]) in RateMap(rs) && |RateMap(rs)[KeyOf(fo[j])]| > 0 {
      assert fo[j] in fo;
      RatesForNonEmpty(rs, KeyOf(fo[j]));
    }
  }

  lemma {:induction false} TotalRatesUnaffected(res: seq<Resolution>, m: map<ResKey, seq<RefreshRate>>, k: ResKey, v: seq<RefreshRate>)
    requires k !in KeySet(res)
    ensures TotalRates(res, m[k := v]) == TotalRates(res, m)
  {
    if res != [] {
      var init, last := res[..|res| - 1], res[|res| - 1];
      assert res == init + [last];
      KeySetAppend(init, last);
      TotalRatesUnaffected(init, m, k, v);
    }
  }

  lemma {:induction false} TotalRatesBump(res: seq<Resolution>, m: map<ResKey, seq<RefreshRate>>, k: ResKey, x: RefreshRate)
    requires DistinctKeys(res) && k in KeySet(res) && k in m
    ensures TotalRates(res, m[k := m[k] + [x]]) == TotalRates(res, m) + 1
  {
    var init, last := res[..|res| - 1], res[|res| - 1];
    assert res == init + [last];
    KeySetAppend(init, last);
    if KeyOf(last) == k {
      forall r | r in init ensures KeyOf(r) != k {
        var i :| 0 <= i < |init| && init[i] == r;
        assert res[i] == r;
      }
      TotalRatesUnaffected(init, m, k, m[k] + [x]);
    } else {
      TotalRatesBump(init, m, k, x);
    }
  }

  /** No reported entry is lost: the rate lists of all resolutions together are as long as the input. */
  lemma {:induction false} TotalRatesCoversInput(rs: seq<Resolution>)
    ensures TotalRates(FirstOccurrences(rs), RateMap(rs)) == |rs|
  {
    if rs != [] {
      var init, last := rs[..|rs| - 1], rs[|rs| - 1];
      var k, x := KeyOf(last), last.refreshRateRatio;
      assert rs == init + [last];
      TotalRatesCoversInput(init);
      FirstOccurrencesKeys(init);
      RateMapAppend(init, last);
      var fo, m := FirstOccurrences(init), RateMap(init);
      if k in KeySet(init) {
        assert FirstOccurrences(rs) == fo;
        assert RateMap(rs) == m[k := m[k] + [x]];
        TotalRatesBump(fo, m, k, x);
      } else {
        assert FirstOccurrences(rs) == fo + [last];
        assert k !in m && [] + [x] == [x];
        assert RateMap(rs) == m[k := [x]];
        TotalRatesUnaffected(fo, m, k, [x]);
        assert (fo + [last])[..|fo|] == fo;
        assert TotalRates(fo + [last], m[k := [x]]) == TotalRates(fo, m[k := [x]]) + 1;
      }
    }
  }

  /** Everything the grouping promises, in one statement. */
  lemma GroupingSpec(rs: seq<Resolution>)
    ensures var res, m := FirstOccurrences(rs), RateMap(rs);
      DistinctKeys(res) && FirstOccurrenceList(res, rs) &&
      m.Keys == KeySet(res) == KeySet(rs) && Consistent(res, m) &&
      TotalRates(res, m) == |rs| && (|res| > 0 <==> |rs| > 0)
  {
    FirstOccurrencesKeys(rs);
    FirstOccurrencesOrder(rs);
    GroupingConsistent(rs);
    TotalRatesCoversInput(rs);
    FirstOccurrencesNonEmpty(rs);
  }
}
