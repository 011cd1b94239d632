/**
 * ISO-8601 text for date-times: `datetime.isoformat()`, the subset of
 * `dateutil.parser.isoparse` the bot relies on, and `iso_no_seconds`.
 */
module IsoText {
  import opened Common
  import opened Text
  import opened Calendar

  /** `YYYY-MM-DD` */
  function DateText(d: Date): (s: string)
    requires ValidDate(d)
    ensures |s| == 10 && ':' !in s
  {
    Pad4(d.year) + "-" + Pad2(d.month) + "-" + Pad2(d.day)
  }

  /** `""` for a naive time, else `+HH:MM` / `-HH:MM` as `isoformat` writes a whole-minute offset. */
  function OffsetText(offset: Option<int>): (s: string)
    requires ValidOffset(offset)
    ensures s == [] || (|s| == 6 && s[0] in "+-" && s[3] == ':')
  {
    match offset
    case None => ""
    case Some(m) =>
      var a := if m < 0 then -m else m;
      [if m < 0 then '-' else '+'] + Pad2(a / 60) + ":" + Pad2(a % 60)
  }

  /** `YYYY-MM-DDTHH:MM`, the part every form below starts with. */
  function ClockText(t: DateTime): (s: string)
    requires ValidDateTime(t)
    ensures |s| == 16
  {
    DateText(t.date) + "T" + Pad2(t.hour) + ":" + Pad2(t.minute)
  }

  /** `dt.replace(microsecond=0).isoformat()`: always carries the seconds field. */
  function IsoFormat(t: DateTime): string
    requires ValidDateTime(t)
  {
    ClockText(t) + ":" + Pad2(t.second) + OffsetText(t.offset)
  }

  /** Reads `YYYY-MM-DDTHH:MM`; the ranges are checked by `ParseIso`. */
  function ParseClock(h: string): Option<(Date, int, int)>
    requires |h| == 16
  {
    if AllDigits(h[0..4]) && h[4] == '-' && AllDigits(h[5..7]) && h[7] == '-' && AllDigits(h[8..10])
       && h[10] == 'T' && AllDigits(h[11..13]) && h[13] == ':' && AllDigits(h[14..16])
    then Some((Date(DigitsValue(h[0..4]), DigitsValue(h[5..7]), DigitsValue(h[8..10])),
               DigitsValue(h[11..13]), DigitsValue(h[14..16])))
    else None
  }

  /** Reads `""` (naive), `Z`, or `±HH:MM` with `MM < 60`. */
  function ParseOffset(z: string): Option<Option<int>>
  {
    if z == [] then Some(None)
    else if z == "Z" then Some(Some(0))
    else if |z| == 6 && (z[0] == '+' || z[0] == '-') && AllDigits(z[1..3]) && z[3] == ':'
            && AllDigits(z[4..6]) && DigitsValue(z[4..6]) < 60 then
      var m := DigitsValue(z[1..3]) * 60 + DigitsValue(z[4..6]);
      Some(Some(if z[0] == '-' then -m else m))
    else None
  }

  /**
   * `isoparse(s)` for `YYYY-MM-DDTHH:MM[:SS][Z|±HH:MM]`; `None` stands for the
   * `ValueError` it raises (other spellings `isoparse` accepts are not modelled).
   */
  function ParseIso(s: string): (r: Option<DateTime>)
    ensures r.Some? ==> ValidDateTime(r.value)
  {
    if |s| < 16 then None
    else match ParseClock(s[..16])
      case None => None
      case Some((date, hour, minute)) =>
        var rest := s[16..];
        var hasSeconds := 3 <= |rest| && rest[0] == ':' && AllDigits(rest[1..3]);
        var second := if hasSeconds then DigitsValue(rest[1..3]) else 0;
        match ParseOffset(if hasSeconds then rest[3..] else rest)
        case None => None
        case Some(offset) =>
          var t := DateTime(date, hour, minute, second, offset);
          if ValidDateTime(t) then Some(t) else None
  }

  lemma ClockRoundTrip(t: DateTime)
    requires ValidDateTime(t)
    ensures ParseClock(ClockText(t)) == Some((t.date, t.hour, t.minute))
  {
    var h := ClockText(t);
    assert h[0..4] == Pad4(t.date.year);
    assert h[5..7] == Pad2(t.date.month);
    assert h[8..10] == Pad2(t.date.day);
    assert h[11..13] == Pad2(t.hour);
    assert h[14..16] == Pad2(t.minute);
  }

  lemma OffsetRoundTrip(offset: Option<int>)
    requires ValidOffset(offset)
    ensures ParseOffset(OffsetText(offset)) == Some(offset)
  {
    if offset.Some? {
      var m := offset.value;
      var a := if m < 0 then -m else m;
      var z := OffsetText(offset);
      assert z[1..3] == Pad2(a / 60) && z[4..6] == Pad2(a % 60);
    }
  }

  /** What `isoformat` writes, `isoparse` reads back unchanged. */
  lemma IsoFormatRoundTrip(t: DateTime)
    requires ValidDateTime(t)
    ensures ParseIso(IsoFormat(t)) == Some(t)
  {
    var s := IsoFormat(t);
    ClockRoundTrip(t);
    OffsetRoundTrip(t.offset);
    assert s[..16] == ClockText(t);
    var rest := s[16..];
    assert rest == ":" + Pad2(t.second) + OffsetText(t.offset);
    assert rest[1..3] == Pad2(t.second);
    assert rest[3..] == OffsetText(t.offset);
  }

  /**
   * `iso_no_seconds` as evidently intended: the ISO text without the seconds
   * field (`isoformat(timespec="minutes")`). It reads back as the same minute.
   */
  function IsoNoSeconds(t: DateTime): (s: string)
    requires ValidDateTime(t)
    ensures ParseIso(s) == Some(t.(second := 0))
  {
    var s := ClockText(t) + OffsetText(t.offset);
    ClockRoundTrip(t);
    OffsetRoundTrip(t.offset);
    assert s[..16] == ClockText(t) && s[16..] == OffsetText(t.offset);
    s
  }

  /** The character class `[+-Z]`: a range from '+' to 'Z', which holds ':' and the digits. */
  predicate InPlusToZ(c: char) { '+' <= c <= 'Z' }

  /** The pattern `:\d{2}([+-Z])` matches at index `i`. */
  predicate MatchAt(s: string, i: nat)
  {
    i + 4 <= |s| && s[i] == ':' && IsDigit(s[i + 1]) && IsDigit(s[i + 2]) && InPlusToZ(s[i + 3])
  }

  /** The rewrite of `s[i..]`, scanning left to right as `re.sub` does. */
  function DropFrom(s: string, i: nat): string
    requires i <= |s|
    decreases |s| - i
  {
    if i == |s| then []
    else if MatchAt(s, i) then [s[i + 3]] + DropFrom(s, i + 4)
    else [s[i]] + DropFrom(s, i + 1)
  }

  /** `re.sub(r":\d{2}([+-Z])", r"\1", s)`: every leftmost non-overlapping match loses `:dd`. */
  function DropColonPairs(s: string): string
  {
    DropFrom(s, 0)
  }

  /** `re.search(r"T\d{2}:\d{2}:\d{2}", s)` succeeds. */
  predicate HasClockGroup(s: string)
  {
    exists i | 0 <= i && i + 9 <= |s| :: ClockGroupAt(s, i)
  }

  /** `T\d{2}:\d{2}:\d{2}` matches at index `i`. */
  predicate ClockGroupAt(s: string, i: nat)
    requires i + 9 <= |s|
  {
    s[i] == 'T' && IsDigit(s[i + 1]) && IsDigit(s[i + 2]) && s[i + 3] == ':'
    && IsDigit(s[i + 4]) && IsDigit(s[i + 5]) && s[i + 6] == ':' && IsDigit(s[i + 7]) && IsDigit(s[i + 8])
  }

  /** The rewrite in `iso_no_seconds`, on any text. */
  function StripSecondsAsWritten(s: string): (r: string)
    ensures !HasClockGroup(s) ==> r == s
  {
    if HasClockGroup(s) then DropColonPairs(s) else s
  }

  /** `iso_no_seconds` as written. */
  function IsoNoSecondsAsWritten(t: DateTime): (r: string)
    requires ValidDateTime(t)
    ensures r == IsoFormat(t)[..13] + IsoFormat(t)[16..]
  {
    IsoFormatHasClockGroup(t);
    DropColonPairsIso(t);
    StripSecondsAsWritten(IsoFormat(t))
  }

  /** Where no match starts, the rewrite copies the text. */
  lemma {:induction false} DropFromCopies(s: string, i: nat, j: nat)
    requires i <= j <= |s|
    requires forall k | i <= k < j :: !MatchAt(s, k)
    ensures DropFrom(s, i) == s[i..j] + DropFrom(s, j)
    decreases j - i
  {
    if i < j {
      assert !MatchAt(s, i);
      assert DropFrom(s, i) == [s[i]] + DropFrom(s, i + 1);
      DropFromCopies(s, i + 1, j);
      calc {
        DropFrom(s, i);
        [s[i]] + (s[i + 1..j] + DropFrom(s, j));
        ([s[i]] + s[i + 1..j]) + DropFrom(s, j);
        { assert [s[i]] + s[i + 1..j] == s[i..j]; }
        s[i..j] + DropFrom(s, j);
      }
    }
  }

  /** `isoformat` output always has the `Thh:mm:ss` group the rewrite is guarded by. */
  lemma IsoFormatHasClockGroup(t: DateTime)
    requires ValidDateTime(t)
    ensures HasClockGroup(IsoFormat(t))
  {
    var s := IsoFormat(t);
    var c := ClockText(t);
    var d, hh, mm, ss := DateText(t.date), Pad2(t.hour), Pad2(t.minute), Pad2(t.second);
    assert c == d + ("T" + hh + ":" + mm);
    assert c[10..] == "T" + hh + ":" + mm;
    assert s == c + (":" + ss + OffsetText(t.offset));
    assert s[..16] == c && s[16] == ':' && s[17] == ss[0] && s[18] == ss[1];
    assert ClockGroupAt(s, 10);
  }

  /**
   * On `isoformat` output `…THH:MM:SS` + offset the one match is `:MM:` at index 13:
   * the text before it, the ':' after it, the seconds and the offset are copied.
   */
  lemma DropColonPairsIso(t: DateTime)
    requires ValidDateTime(t)
    ensures DropColonPairs(IsoFormat(t)) == IsoFormat(t)[..13] + IsoFormat(t)[16..]
  {
    var s := IsoFormat(t);
    var c := ClockText(t);
    var z := OffsetText(t.offset);
    assert s == c + ":" + Pad2(t.second) + z;
    assert c == DateText(t.date) + ("T" + Pad2(t.hour) + ":" + Pad2(t.minute));
    assert ':' !in s[..13] by {
      assert s[..13] == DateText(t.date) + "T" + Pad2(t.hour);
    }
    assert s[13] == ':' && IsDigit(s[14]) && IsDigit(s[15]) && s[16] == ':';
    assert forall k | 17 <= k < 19 :: IsDigit(s[k]);
    assert s[19..] == z;
    DropFromCopies(s, 0, 13);
    assert MatchAt(s, 13);
    DropFromCopies(s, 17, |s|);
    assert s[16..] == [s[16]] + s[17..];
  }

  /**
   * As written, `iso_no_seconds` removes the MINUTES: on `…THH:MM:SS±hh:mm` the
   * leftmost match is `:MM:` (':' lies in the range '+'..'Z'), so `HH:SS` remains.
   */
  lemma AsWrittenDropsMinutes(t: DateTime)
    requires ValidDateTime(t)
    ensures IsoNoSecondsAsWritten(t)
            == DateText(t.date) + "T" + Pad2(t.hour) + ":" + Pad2(t.second) + OffsetText(t.offset)
  {
    IsoFormatHasClockGroup(t);
    DropColonPairsIso(t);
    var s := IsoFormat(t);
    assert s == DateText(t.date) + "T" + Pad2(t.hour) + (":" + Pad2(t.minute)) + (":" + Pad2(t.second) + OffsetText(t.offset));
  }

  /** As written, the stored text reads back with the seconds where the minutes belong. */
  lemma AsWrittenReadsBackWrongMinute(t: DateTime)
    requires ValidDateTime(t)
    ensures ParseIso(IsoNoSecondsAsWritten(t)) == Some(t.(minute := t.second, second := 0))
  {
    AsWrittenDropsMinutes(t);
    var u := t.(minute := t.second, second := 0);
    assert IsoNoSecondsAsWritten(t) == IsoNoSeconds(u);
  }

  /** The two agree exactly when the minute and second fields are equal. */
  lemma AsWrittenAgreesOnlyWhenMinuteIsSecond(t: DateTime)
    requires ValidDateTime(t)
    ensures IsoNoSecondsAsWritten(t) == IsoNoSeconds(t) <==> t.minute == t.second
  {
    AsWrittenReadsBackWrongMinute(t);
    if t.minute == t.second {
      AsWrittenDropsMinutes(t);
    }
  }

  /**
   * As written, 10:30:00 at +03:00 is stored as text that reads back as 10:00:
   * the text differs from the intended one and the reminder moves half an hour.
   */
  lemma AsWrittenCounterexample(t: DateTime)
    requires t == DateTime(Date(2025, 1, 2), 10, 30, 0, Some(180))
    ensures IsoNoSecondsAsWritten(t) != IsoNoSeconds(t)
    ensures ParseIso(IsoNoSecondsAsWritten(t)) == Some(DateTime(Date(2025, 1, 2), 10, 0, 0, Some(180)))
  {
    AsWrittenAgreesOnlyWhenMinuteIsSecond(t);
    AsWrittenReadsBackWrongMinute(t);
  }
}
