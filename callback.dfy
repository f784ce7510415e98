/**
 * The inline-keyboard callback payloads: the three fixed payloads of the main menu and the
 * `remove_cow_<id>` / `mark_missing_<id>` payloads built for each listed cow, parsed back with
 * Python's `data.split('_')[-1]`.
 */
module Callback {

  /** The character the payloads are split on. */
  const Separator: char := '_'

  const AddCowPayload: string := "add_cow"
  const ListCowsPayload: string := "list_cows"
  const IdentifyCowPayload: string := "identify_cow"
  const RemovePrefix: string := "remove_cow_"
  const MissingPrefix: string := "mark_missing_"

  /** What a button press asks for. */
  datatype Action =
    | PressAddCow
    | PressList
    | PressIdentify
    | PressRemove(cowId: string)
    | PressMarkMissing(cowId: string)
    | PressOther

  /** Python's `str.startswith`. */
  predicate StartsWith(s: string, prefix: string) {
    |prefix| <= |s| && s[..|prefix|] == prefix
  }

  /** Python's `sep.join(parts)`; the inverse of `Split`. */
  function Join(parts: seq<string>, sep: char): string
    requires |parts| >= 1
    decreases |parts|
  {
    if |parts| == 1 then parts[0] else parts[0] + [sep] + Join(parts[1..], sep)
  }

  /**
   * Python's `s.split(sep)` for a one-character separator: the maximal runs between separators,
   * empty runs included, so `"".split(sep) == [""]`.
   */
  function Split(s: string, sep: char): (parts: seq<string>)
    ensures |parts| >= 1
    ensures forall i :: 0 <= i < |parts| ==> sep !in parts[i]
    ensures Join(parts, sep) == s
    decreases |s|
  {
    if s == [] then [""]
    else
      var rest := Split(s[1..], sep);
      if s[0] == sep then
        assert Join([""] + rest, sep) == [sep] + Join(rest, sep) by {
          assert ([""] + rest)[1..] == rest;
        }
        assert s == [s[0]] + s[1..];
        [""] + rest
      else
        var parts := [[s[0]] + rest[0]] + rest[1..];
        assert parts[1..] == rest[1..];
        assert Join(parts, sep) == [s[0]] + Join(rest, sep) by {
          if |rest| > 1 {
            assert Join(parts, sep) == ([s[0]] + rest[0]) + [sep] + Join(rest[1..], sep);
          }
        }
        assert s == [s[0]] + s[1..];
        parts
  }

  /** The last part of a join is a suffix of it, preceded by the separator when there are several parts. */
  lemma {:induction false} JoinLast(parts: seq<string>, sep: char)
    requires |parts| >= 1
    ensures var last, j := parts[|parts| - 1], Join(parts, sep);
      |last| <= |j| && j[|j| - |last|..] == last &&
      (|parts| > 1 ==> |last| < |j| && j[|j| - |last| - 1] == sep)
    decreases |parts|
  {
    if |parts| > 1 {
      JoinLast(parts[1..], sep);
      var last, tail := parts[|parts| - 1], Join(parts[1..], sep);
      assert parts[1..][|parts[1..]| - 1] == last;
      var j := parts[0] + [sep] + tail;
      assert j[|j| - |tail|..] == tail;
      if |parts[1..]| == 1 {
        assert tail == last;
        assert j[|j| - |last| - 1] == sep;
      } else {
        assert j[|j| - |last| - 1] == tail[|tail| - |last| - 1];
      }
    }
  }

  /**
   * Python's `s.split(sep)[-1]`: the longest suffix of `s` that holds no separator.
   */
  function LastSegment(s: string, sep: char): (r: string)
    ensures sep !in r
    ensures |r| <= |s| && s[|s| - |r|..] == r
    ensures |r| < |s| ==> s[|s| - |r| - 1] == sep
  {
    var parts := Split(s, sep);
    JoinLast(parts, sep);
    parts[|parts| - 1]
  }

  /** Whatever precedes the last separator, the segment after it is what `split(sep)[-1]` returns. */
  lemma LastSegmentAfterSeparator(prefix: string, id: string, sep: char)
    requires |prefix| >= 1 && prefix[|prefix| - 1] == sep
    requires sep !in id
    ensures LastSegment(prefix + id, sep) == id
  {
    var s := prefix + id;
    var r := LastSegment(s, sep);
    assert s[|s| - |id|..] == id;
  }

  /** The payload of a cow's "Remove" button. */
  function RemovePayload(cowId: string): string {
    RemovePrefix + cowId
  }

  /** The payload of a cow's "Mark as Missing" button. */
  function MissingPayload(cowId: string): string {
    MissingPrefix + cowId
  }

  /**
   * The dispatch of the button handler: exact payloads first, then the two prefixes,
   * the cow id being the last `_`-segment; anything else is ignored.
   */
  function ParseButton(data: string): (a: Action)
    ensures a.PressRemove? ==>
      StartsWith(data, RemovePrefix) && |a.cowId| <= |data| && data[|data| - |a.cowId|..] == a.cowId
    ensures a.PressMarkMissing? ==>
      StartsWith(data, MissingPrefix) && !StartsWith(data, RemovePrefix) &&
      |a.cowId| <= |data| && data[|data| - |a.cowId|..] == a.cowId
    ensures a == PressOther <==>
      data !in {AddCowPayload, ListCowsPayload, IdentifyCowPayload} &&
      !StartsWith(data, RemovePrefix) && !StartsWith(data, MissingPrefix)
  {
    if data == AddCowPayload then PressAddCow
    else if data == ListCowsPayload then PressList
    else if data == IdentifyCowPayload then PressIdentify
    else if StartsWith(data, RemovePrefix) then PressRemove(LastSegment(data, Separator))
    else if StartsWith(data, MissingPrefix) then PressMarkMissing(LastSegment(data, Separator))
    else PressOther
  }

  /** A parsed cow id never holds the separator. */
  lemma ParsedIdHasNoSeparator(data: string)
    ensures ParseButton(data).PressRemove? || ParseButton(data).PressMarkMissing? ==>
      Separator !in ParseButton(data).cowId
  {
  }

  /** The buttons built for a cow whose id holds no `_` come back as that cow's id. */
  lemma PayloadRoundTrip(cowId: string)
    requires Separator !in cowId
    ensures ParseButton(RemovePayload(cowId)) == PressRemove(cowId)
    ensures ParseButton(MissingPayload(cowId)) == PressMarkMissing(cowId)
  {
    var rp, mp := RemovePayload(cowId), MissingPayload(cowId);
    assert rp[0] == 'r' && mp[0] == 'm';
    assert rp[..|RemovePrefix|] == RemovePrefix;
    assert mp[..|MissingPrefix|] == MissingPrefix;
    assert rp != AddCowPayload && rp != ListCowsPayload && rp != IdentifyCowPayload;
    assert mp != AddCowPayload && mp != ListCowsPayload && mp != IdentifyCowPayload;
    assert !StartsWith(mp, RemovePrefix) by { assert mp[0] != RemovePrefix[0]; }
    LastSegmentAfterSeparator(RemovePrefix, cowId, Separator);
    LastSegmentAfterSeparator(MissingPrefix, cowId, Separator);
  }

  /** Whatever ends in a separator before `tail` does not change the last segment of `tail`. */
  lemma LastSegmentAfterPrefix(prefix: string, tail: string, sep: char)
    requires |prefix| >= 1 && prefix[|prefix| - 1] == sep
    ensures LastSegment(prefix + tail, sep) == LastSegment(tail, sep)
  {
    var s, t := prefix + tail, LastSegment(tail, sep);
    assert s[|s| - |tail|..] == tail;
    assert s[|s| - |t|..] == tail[|tail| - |t|..];
    if |t| < |tail| {
      assert s[|s| - |t| - 1] == tail[|tail| - |t| - 1];
    } else {
      assert s[|s| - |t| - 1] == prefix[|prefix| - 1];
    }
    assert |LastSegment(s, sep)| == |t|;
  }

  /**
   * Every payload with a remove or mark-missing prefix reaches that action, with the last
   * `_`-segment of what follows the prefix as cow id: `remove_cow_a_b` removes `b`.
   */
  lemma UnderscoreInIdIsTruncated(cowId: string)
    ensures ParseButton(RemovePayload(cowId)) == PressRemove(LastSegment(cowId, Separator))
    ensures ParseButton(MissingPayload(cowId)) == PressMarkMissing(LastSegment(cowId, Separator))
  {
    var rp, mp := RemovePayload(cowId), MissingPayload(cowId);
    assert rp[0] == 'r' && mp[0] == 'm';
    assert rp[..|RemovePrefix|] == RemovePrefix;
    assert mp[..|MissingPrefix|] == MissingPrefix;
    assert rp != AddCowPayload && rp != ListCowsPayload && rp != IdentifyCowPayload;
    assert mp != AddCowPayload && mp != ListCowsPayload && mp != IdentifyCowPayload;
    assert !StartsWith(mp, RemovePrefix) by { assert mp[0] != RemovePrefix[0]; }
    LastSegmentAfterPrefix(RemovePrefix, cowId, Separator);
    LastSegmentAfterPrefix(MissingPrefix, cowId, Separator);
  }

  /** The three menu payloads are recognised exactly, before any prefix test. */
  lemma FixedPayloads()
    ensures ParseButton(AddCowPayload) == PressAddCow
    ensures ParseButton(ListCowsPayload) == PressList
    ensures ParseButton(IdentifyCowPayload) == PressIdentify
  {
  }
}
