/** The persistent key-value store (Unity's PlayerPrefs) that every setting writes to.
    Each key holds one typed entry: an int written by SetInt or a float written by SetFloat.
    The two kinds stay distinct: reading a float entry as an int gives the default 0. */
module Prefs {

  datatype Entry = IntEntry(i: int) | FloatEntry(f: real)

  /** PlayerPrefs.HasKey: true when the key holds an entry of either kind. */
  predicate HasKey(entries: map<string, Entry>, key: string) {
    key in entries
  }

  /** PlayerPrefs.GetInt(key): the stored int, or 0 when the key is absent or holds a float. */
  function GetInt(entries: map<string, Entry>, key: string): int {
    if key in entries && entries[key].IntEntry? then entries[key].i else 0
  }

  /** The single store shared by all settings. */
  class PlayerPrefs {
    var entries: map<string, Entry>

    constructor (initial: map<string, Entry>)
      ensures entries == initial
    {
      entries := initial;
    }

    method SetInt(key: string, value: int)
      modifies this
      ensures entries == old(entries)[key := IntEntry(value)]
    {
      entries := entries[key := IntEntry(value)];
    }

    method SetFloat(key: string, value: real)
      modifies this
      ensures entries == old(entries)[key := FloatEntry(value)]
    {
      entries := entries[key := FloatEntry(value)];
    }
  }
}

/** Unity's Mathf.Clamp on ints: below min gives min, else above max gives max. */
module Mathf {

  function Clamp(value: int, min: int, max: int): (r: int)
    ensures min <= max ==> min <= r <= max
    ensures min <= value <= max ==> r == value
    ensures value < min ==> r == min
    ensures min <= value && max < value ==> r == max
  {
    if value < min then min else if value > max then max else value
  }
}
