/**
 * The user's timezone text: the city buttons, the offset pattern
 * `([+-])(\d{1,2})(?::?(\d{2}))?` shared by `parse_tz_input` and
 * `tzinfo_from_user`, `normalize_offset`, and the conversion to a fixed
 * offset in minutes or a named zone.
 */
module TimeZones {
  import opened Common
  import opened Text

  /** The label of the free-input button on the timezone keyboard. */
  const OtherLabel: string := "Другой…"

  /** The timezone keyboard, row by row. */
  const TzRows: seq<seq<string>> := [
    ["Калининград (+2)", "Москва (+3)"],
    ["Самара (+4)", "Екатеринбург (+5)"],
    ["Омск (+6)", "Новосибирск (+7)"],
    ["Иркутск (+8)", "Якутск (+9)"],
    ["Хабаровск (+10)", OtherLabel]
  ]

  /** The fixed offset each city button stands for. */
  const CityToOffset: map<string, string> := map[
    "Калининград (+2)" := "+02:00",
    "Москва (+3)" := "+03:00",
    "Самара (+4)" := "+04:00",
    "Екатеринбург (+5)" := "+05:00",
    "Омск (+6)" := "+06:00",
    "Новосибирск (+7)" := "+07:00",
    "Иркутск (+8)" := "+08:00",
    "Якутск (+9)" := "+09:00",
    "Хабаровск (+10)" := "+10:00"
  ]

  /** The groups of a match of `([+-])(\d{1,2})(?::?(\d{2}))?`. */
  datatype OffsetGroups = OffsetGroups(sign: char, hours: string, minutes: Option<string>)

  predicate GroupsWellFormed(g: OffsetGroups)
  {
    (g.sign == '+' || g.sign == '-') && 1 <= |g.hours| <= 2 && AllDigits(g.hours)
    && (g.minutes.Some? ==> |g.minutes.value| == 2 && AllDigits(g.minutes.value))
  }

  /** `t` is the text these groups were matched from, with or without the optional ':'. */
  predicate Spells(t: string, g: OffsetGroups)
  {
    match g.minutes
    case None => t == [g.sign] + g.hours
    case Some(m) => t == [g.sign] + g.hours + m || t == [g.sign] + g.hours + ":" + m
  }

  /**
   * `re.fullmatch` of the offset pattern. Where the pattern is ambiguous by
   * length the regex engine's choice is taken: on three digits the greedy
   * hour group gives one digit back, so `+123` is 1 hour 23 minutes.
   */
  function MatchOffset(t: string): (r: Option<OffsetGroups>)
    ensures r.Some? ==> GroupsWellFormed(r.value) && Spells(t, r.value)
  {
    if |t| < 2 || (t[0] != '+' && t[0] != '-') then None
    else
      var d := t[1..];
      assert t == [t[0]] + d;
      if |d| <= 2 && AllDigits(d) then
        Some(OffsetGroups(t[0], d, None))
      else if |d| == 3 && AllDigits(d) then
        assert d == d[..1] + d[1..];
        Some(OffsetGroups(t[0], d[..1], Some(d[1..])))
      else if |d| == 4 && AllDigits(d) then
        assert d == d[..2] + d[2..];
        Some(OffsetGroups(t[0], d[..2], Some(d[2..])))
      else if |d| == 4 && d[1] == ':' && IsDigit(d[0]) && AllDigits(d[2..]) then
        assert d == d[..1] + ":" + d[2..];
        Some(OffsetGroups(t[0], d[..1], Some(d[2..])))
      else if |d| == 5 && d[2] == ':' && AllDigits(d[..2]) && AllDigits(d[3..]) then
        assert d == d[..2] + ":" + d[3..];
        Some(OffsetGroups(t[0], d[..2], Some(d[3..])))
      else
        None
  }

  /** The pattern matches every text it can spell, and with exactly those groups. */
  lemma MatchOffsetComplete(t: string, g: OffsetGroups)
    requires GroupsWellFormed(g) && Spells(t, g)
    ensures MatchOffset(t) == Some(g)
  {
    var d := t[1..];
    var h := g.hours;
    match g.minutes
    case None =>
      assert d == h;
    case Some(m) =>
      if t == [g.sign] + h + m {
        assert d == h + m;
        assert AllDigits(d) by {
          forall i | 0 <= i < |d| ensures IsDigit(d[i]) {
            if i < |h| { assert d[i] == h[i]; } else { assert d[i] == m[i - |h|]; }
          }
        }
        if |h| == 1 {
          assert d[..1] == h && d[1..] == m;
        } else {
          assert d[..2] == h && d[2..] == m;
        }
      } else {
        assert d == h + ":" + m;
        if |h| == 1 {
          assert d[1] == ':' && !IsDigit(d[1]);
          assert d[..1] == h && d[2..] == m;
        } else {
          assert d[2] == ':' && !IsDigit(d[2]);
          assert d[..2] == h && d[3..] == m;
        }
      }
  }

  /** A text the offset pattern matches holds only signs, digits and ':'. */
  lemma MatchedHasNoSlashOrSpace(t: string)
    requires MatchOffset(t).Some?
    ensures '/' !in t && ' ' !in t
  {
    var g := MatchOffset(t).value;
    forall i | 0 <= i < |t| ensures t[i] != '/' && t[i] != ' ' {
      if i == 0 {
        assert t[i] == g.sign;
      } else if i <= |g.hours| {
        assert t[i] == g.hours[i - 1];
      } else {
        var m := g.minutes.value;
        if t == [g.sign] + g.hours + m {
          assert t[i] == m[i - 1 - |g.hours|];
        } else if i > |g.hours| + 1 {
          assert t[i] == m[i - 2 - |g.hours|];
        }
      }
    }
  }

  /** The normal form `±HH:MM` that `normalize_offset` writes. */
  predicate IsNormalOffset(s: string)
  {
    |s| == 6 && (s[0] == '+' || s[0] == '-') && AllDigits(s[1..3]) && s[3] == ':' && AllDigits(s[4..])
  }

  /** The signed minutes a normal-form offset stands for. */
  function NormalOffsetMinutes(s: string): int
    requires IsNormalOffset(s)
  {
    var a := 60 * DigitsValue(s[1..3]) + DigitsValue(s[4..]);
    if s[0] == '-' then -a else a
  }

  function MinutesValue(mm: Option<string>): nat
    requires mm.Some? ==> AllDigits(mm.value)
  {
    if mm.None? then 0 else DigitsValue(mm.value)
  }

  /** The signed minutes matched groups stand for: `timedelta(hours=hh, minutes=mm)`, negated for '-'. */
  function GroupMinutes(g: OffsetGroups): int
    requires GroupsWellFormed(g)
  {
    var a := 60 * DigitsValue(g.hours) + MinutesValue(g.minutes);
    if g.sign == '-' then -a else a
  }

  /** `normalize_offset(sign, hh, mm)`: two-digit hour and minute, keeping the sign and both values. */
  function NormalizeOffset(sign: char, hh: string, mm: Option<string>): (r: string)
    requires GroupsWellFormed(OffsetGroups(sign, hh, mm))
    ensures IsNormalOffset(r) && r[0] == sign
    ensures DigitsValue(r[1..3]) == DigitsValue(hh) && DigitsValue(r[4..]) == MinutesValue(mm)
    ensures NormalOffsetMinutes(r) == GroupMinutes(OffsetGroups(sign, hh, mm))
  {
    TwoDigitsBound(hh);
    assert MinutesValue(mm) < 100 by { if mm.Some? { TwoDigitsBound(mm.value); } }
    var h, m := Pad2(DigitsValue(hh)), Pad2(MinutesValue(mm));
    var r := [sign] + h + ":" + m;
    assert r[1..3] == h && r[4..] == m;
    r
  }

  /** A normal-form offset has no whitespace at either end. */
  lemma NormalOffsetUnpadded(s: string)
    requires IsNormalOffset(s)
    ensures Unpadded(s) && Strip(s) == s
  {
    assert IsDigit(s[4..][1]);
  }

  /** The groups the offset pattern finds in a normal-form offset. */
  function NormalGroups(s: string): OffsetGroups
    requires IsNormalOffset(s)
  {
    OffsetGroups(s[0], s[1..3], Some(s[4..]))
  }

  /** A normal-form offset matches the pattern, with its two fields as the groups. */
  lemma NormalOffsetMatches(s: string)
    requires IsNormalOffset(s)
    ensures MatchOffset(s) == Some(NormalGroups(s))
    ensures GroupMinutes(NormalGroups(s)) == NormalOffsetMinutes(s)
  {
    assert s == [s[0]] + s[1..3] + ":" + s[4..];
    MatchOffsetComplete(s, NormalGroups(s));
  }

  /** Text that starts with a sign, or holds no space, is no city label. */
  lemma NotCityLabel(t: string)
    requires (t != [] && (t[0] == '+' || t[0] == '-')) || ' ' !in t
    ensures t !in CityToOffset
  {
    CityLabelsUnsigned();
  }

  /** No city label starts with a sign, every one holds a space, and each maps to a normal offset. */
  lemma CityLabelsUnsigned()
    ensures forall k | k in CityToOffset :: k != [] && k[0] != '+' && k[0] != '-' && ' ' in k
  {
    forall k | k in CityToOffset ensures k != [] && k[0] != '+' && k[0] != '-' && ' ' in k {
      assert k[|k| - 5] == ' ' || k[|k| - 6] == ' ';
    }
  }

  lemma CityOffsetsNormal()
    ensures forall k | k in CityToOffset :: IsNormalOffset(CityToOffset[k])
  {
    forall k | k in CityToOffset ensures IsNormalOffset(CityToOffset[k]) {
      var v := CityToOffset[k];
      assert v[1..3] == [v[1], v[2]] && v[4..] == [v[4], v[5]];
    }
  }

  /** Every city offset is under a day, so `timezone()` takes it. */
  lemma CityOffsetsInRange()
    ensures forall k | k in CityToOffset ::
      IsNormalOffset(CityToOffset[k]) && -1440 < NormalOffsetMinutes(CityToOffset[k]) < 1440
  {
    CityOffsetsNormal();
    forall k | k in CityToOffset
      ensures -1440 < NormalOffsetMinutes(CityToOffset[k]) < 1440
    {
      SmallHourInRange(CityToOffset[k]);
    }
  }

  /** A normal-form offset whose hour starts with 0 or 1 is under a day. */
  lemma SmallHourInRange(s: string)
    requires IsNormalOffset(s) && s[1] <= '1'
    ensures -1440 < NormalOffsetMinutes(s) < 1440
  {
    var h := s[1..3];
    assert h[..|h| - 1] == h[..1] && h[..1][..0] == [];
    assert DigitsValue(h[..1]) == DigitValue(s[1]) <= 1;
    assert DigitsValue(h) < 20;
    TwoDigitsBound(s[4..]);
  }

  /** A zone key `parse_tz_input` passes on: a known key with a '/' and no space or padding. */
  predicate IsZoneKey(s: string, zones: set<string>)
  {
    s in zones && '/' in s && ' ' !in s && Unpadded(s)
  }

  /**
   * `parse_tz_input(text)`: `None` for empty text; otherwise the stripped text
   * as a city label, an offset in normal form, or a known zone key.
   * Which zone keys exist is the parameter `zones`.
   */
  function ParseTzInput(text: string, zones: set<string>): (r: Option<string>)
    ensures text == [] ==> r == None
    ensures text != [] ==>
      (r.Some? <==> Strip(text) in CityToOffset || MatchOffset(Strip(text)).Some? || IsZoneKey(Strip(text), zones))
    ensures r.Some? ==> IsNormalOffset(r.value) || (IsZoneKey(r.value, zones) && r.value == Strip(text))
  {
    if text == [] then None else ParseStripped(Strip(text), zones)
  }

  /** The steps of `parse_tz_input` after `strip()`. */
  function ParseStripped(t: string, zones: set<string>): (r: Option<string>)
    ensures r.Some? <==> t in CityToOffset || MatchOffset(t).Some? || (t in zones && '/' in t && ' ' !in t)
    ensures t in CityToOffset ==> r == Some(CityToOffset[t])
    ensures t !in CityToOffset && MatchOffset(t).Some? ==>
      var g := MatchOffset(t).value;
      r == Some(NormalizeOffset(g.sign, g.hours, g.minutes))
    ensures t !in CityToOffset && MatchOffset(t).None? && r.Some? ==> r == Some(t)
    ensures r.Some? ==> IsNormalOffset(r.value) || (r.value == t && t in zones && '/' in t && ' ' !in t)
  {
    if t in CityToOffset then
      CityOffsetsNormal();
      Some(CityToOffset[t])
    else
      match MatchOffset(t)
      case Some(g) => Some(NormalizeOffset(g.sign, g.hours, g.minutes))
      case None => if '/' in t && ' ' !in t && t in zones then Some(t) else None
  }

  /** A city label, padded or not, gives that city's offset. */
  lemma ParseTzInputCity(text: string, zones: set<string>)
    requires Strip(text) in CityToOffset
    ensures ParseTzInput(text, zones) == Some(CityToOffset[Strip(text)])
  {
    assert text != [] by {
      NotCityLabel([]);
    }
  }

  /** A normal-form offset is accepted unchanged. */
  lemma NormalOffsetAccepted(s: string, zones: set<string>)
    requires IsNormalOffset(s)
    ensures ParseTzInput(s, zones) == Some(s)
  {
    assert ParseTzInput(s, zones) == ParseStripped(s, zones) by {
      NormalOffsetUnpadded(s);
      assert |s| > 0;
    }
    NormalOffsetStripped(s, zones);
  }

  lemma NormalOffsetStripped(s: string, zones: set<string>)
    requires IsNormalOffset(s)
    ensures ParseStripped(s, zones) == Some(s)
  {
    var g := NormalGroups(s);
    assert ParseStripped(s, zones) == Some(NormalizeOffset(g.sign, g.hours, g.minutes)) by {
      NotCityLabel(s);
      NormalOffsetMatches(s);
    }
    NormalizeNormalOffset(s);
  }

  /** `normalize_offset` leaves a normal-form offset as it is. */
  lemma NormalizeNormalOffset(s: string)
    requires IsNormalOffset(s)
    ensures NormalizeOffset(s[0], s[1..3], Some(s[4..])) == s
  {
    Pad2OfDigits(s[1..3]);
    Pad2OfDigits(s[4..]);
    assert [s[0]] + s[1..3] + ":" + s[4..] == s;
  }

  /** A zone key `parse_tz_input` passed on is passed on again. */
  lemma ZoneKeyAccepted(s: string, zones: set<string>)
    requires IsZoneKey(s, zones)
    ensures ParseTzInput(s, zones) == Some(s)
  {
    assert ParseTzInput(s, zones) == ParseStripped(s, zones) by {
      assert s != [] by { assert '/' in s; }
    }
    assert ParseStripped(s, zones) == Some(s) by {
      NotCityLabel(s);
      if MatchOffset(s).Some? {
        MatchedHasNoSlashOrSpace(s);
      }
    }
  }

  /** Feeding an accepted result back in gives the same result. */
  lemma ParseTzInputIdempotent(text: string, zones: set<string>)
    requires ParseTzInput(text, zones).Some?
    ensures ParseTzInput(ParseTzInput(text, zones).value, zones) == ParseTzInput(text, zones)
  {
    var s := ParseTzInput(text, zones).value;
    if IsNormalOffset(s) {
      NormalOffsetAccepted(s, zones);
    } else {
      ZoneKeyAccepted(s, zones);
    }
  }

  /** The test `tz_str[0] in "+-"`. */
  predicate IsSign(c: char)
  {
    c == '+' || c == '-'
  }

  /** What `tzinfo_from_user` returns: a fixed offset in minutes, or a named zone. */
  datatype TzInfo = Fixed(minutes: int) | Zone(key: string)

  /**
   * Its failures: indexing an all-blank string, text starting with a sign
   * that the pattern rejects, `timezone()` refusing an offset of a whole day
   * or more, and `ZoneInfo` not knowing the key.
   */
  datatype TzError = IndexError | InvalidOffset | OffsetOutOfRange | UnknownZone

  /** `timezone(delta)` for the matched groups, if the pattern matched and the offset is under a day. */
  function FixedOffset(m: Option<OffsetGroups>): (r: Result<TzInfo, TzError>)
    requires m.Some? ==> GroupsWellFormed(m.value)
    ensures r.Ok? ==> r.value.Fixed? && -1440 < r.value.minutes < 1440
    ensures r == Err(InvalidOffset) <==> m.None?
  {
    match m
    case None => Err(InvalidOffset)
    case Some(g) =>
      var minutes := GroupMinutes(g);
      if -1440 < minutes < 1440 then Ok(Fixed(minutes)) else Err(OffsetOutOfRange)
  }

  /** `tzinfo_from_user(tz_str)`; which zone keys exist is the parameter `zones`. */
  function TzinfoFromUser(tzStr: string, zones: set<string>): (r: Result<TzInfo, TzError>)
    ensures tzStr == [] ==> r == Ok(Fixed(180))
    ensures r == Err(IndexError) <==> tzStr != [] && Strip(tzStr) == []
    ensures r.Ok? && r.value.Fixed? ==> -1440 < r.value.minutes < 1440
    ensures r.Ok? && r.value.Zone? ==> r.value.key in zones && r.value.key == Strip(tzStr)
    ensures tzStr != [] && Strip(tzStr) != [] && !IsSign(Strip(tzStr)[0]) ==>
      r == if Strip(tzStr) in zones then Ok(Zone(Strip(tzStr))) else Err(UnknownZone)
    ensures r == Err(InvalidOffset) <==>
      tzStr != [] && Strip(tzStr) != [] && IsSign(Strip(tzStr)[0]) && MatchOffset(Strip(tzStr)).None?
    ensures tzStr != [] && MatchOffset(Strip(tzStr)).Some? ==>
      var g := MatchOffset(Strip(tzStr)).value;
      r == if -1440 < GroupMinutes(g) < 1440 then Ok(Fixed(GroupMinutes(g))) else Err(OffsetOutOfRange)
  {
    if tzStr == [] then Ok(Fixed(3 * 60)) else TzinfoStripped(Strip(tzStr), zones)
  }

  /** The steps of `tzinfo_from_user` after `strip()`. */
  function TzinfoStripped(t: string, zones: set<string>): (r: Result<TzInfo, TzError>)
    ensures r == Err(IndexError) <==> t == []
    ensures r.Ok? && r.value.Fixed? ==> -1440 < r.value.minutes < 1440
    ensures r.Ok? && r.value.Zone? ==> r.value.key == t && t in zones
    ensures t != [] && !IsSign(t[0]) ==> r == if t in zones then Ok(Zone(t)) else Err(UnknownZone)
    ensures r == Err(InvalidOffset) <==> t != [] && IsSign(t[0]) && MatchOffset(t).None?
    ensures MatchOffset(t).Some? ==>
      var g := MatchOffset(t).value;
      r == if -1440 < GroupMinutes(g) < 1440 then Ok(Fixed(GroupMinutes(g))) else Err(OffsetOutOfRange)
  {
    if t == [] then Err(IndexError)
    else if IsSign(t[0]) then FixedOffset(MatchOffset(t))
    else if t in zones then Ok(Zone(t))
    else Err(UnknownZone)
  }

  /**
   * The two functions share the offset pattern: text it matches is accepted
   * by `parse_tz_input`, and `tzinfo_from_user` gives the same answer on the
   * raw text and on its normal form, namely the signed minutes `sign·(60h+m)`
   * when they are less than a day.
   */
  lemma OffsetAcceptedByBoth(text: string, zones: set<string>, g: OffsetGroups)
    requires GroupsWellFormed(g) && Spells(Strip(text), g)
    ensures ParseTzInput(text, zones) == Some(NormalizeOffset(g.sign, g.hours, g.minutes))
    ensures TzinfoFromUser(NormalizeOffset(g.sign, g.hours, g.minutes), zones) == TzinfoFromUser(text, zones)
    ensures TzinfoFromUser(text, zones)
            == if -1440 < GroupMinutes(g) < 1440 then Ok(Fixed(GroupMinutes(g))) else Err(OffsetOutOfRange)
  {
    var t := Strip(text);
    var n := NormalizeOffset(g.sign, g.hours, g.minutes);
    MatchOffsetComplete(t, g);
    assert t[0] == g.sign;
    assert ParseTzInput(text, zones) == ParseStripped(t, zones);
    assert ParseStripped(t, zones) == Some(n) by {
      NotCityLabel(t);
    }
    assert TzinfoFromUser(text, zones) == FixedOffset(Some(g)) by {
      assert TzinfoFromUser(text, zones) == TzinfoStripped(t, zones);
    }
    assert TzinfoFromUser(n, zones) == FixedOffset(MatchOffset(n)) by {
      NormalOffsetUnpadded(n);
      assert |n| > 0;
    }
    NormalOffsetMatches(n);
  }

  /** On a normal-form offset, `tzinfo_from_user` gives its minutes or refuses a whole day. */
  lemma NormalOffsetTzinfo(s: string, zones: set<string>)
    requires IsNormalOffset(s)
    ensures TzinfoFromUser(s, zones)
            == if -1440 < NormalOffsetMinutes(s) < 1440 then Ok(Fixed(NormalOffsetMinutes(s))) else Err(OffsetOutOfRange)
  {
    var x := FixedOffset(MatchOffset(s));
    assert TzinfoFromUser(s, zones) == x by {
      NormalOffsetUnpadded(s);
      assert |s| > 0;
    }
    assert x == if -1440 < NormalOffsetMinutes(s) < 1440 then Ok(Fixed(NormalOffsetMinutes(s))) else Err(OffsetOutOfRange) by {
      NormalOffsetMatches(s);
    }
  }

  /** Real zone keys never start with a sign. */
  predicate UnsignedZones(zones: set<string>)
  {
    forall z | z in zones && z != [] :: z[0] != '+' && z[0] != '-'
  }

  /**
   * `parse_tz_input` with the range check `timezone()` makes: an offset of a
   * whole day or more (`+24`, `+23:99`) is not a timezone.
   */
  function ParseTzInputChecked(text: string, zones: set<string>): (r: Option<string>)
    ensures r.Some? ==> ParseTzInput(text, zones) == r
    ensures r.None? && ParseTzInput(text, zones).Some? ==>
      var p := ParseTzInput(text, zones).value;
      IsNormalOffset(p) && !(-1440 < NormalOffsetMinutes(p) < 1440)
  {
    var p := ParseTzInput(text, zones);
    if p.Some? && IsNormalOffset(p.value) && !(-1440 < NormalOffsetMinutes(p.value) < 1440) then None
    else p
  }

  /** The checked parse accepts exactly the accepted texts `tzinfo_from_user` can convert. */
  lemma ParseTzInputCheckedUsable(text: string, zones: set<string>)
    requires UnsignedZones(zones) && ParseTzInput(text, zones).Some?
    ensures ParseTzInputChecked(text, zones).Some? <==> TzinfoFromUser(ParseTzInput(text, zones).value, zones).Ok?
  {
    var s := ParseTzInput(text, zones).value;
    if IsNormalOffset(s) {
      NormalOffsetTzinfo(s, zones);
    } else {
      assert IsZoneKey(s, zones);
      assert s != [] by { assert '/' in s; }
      assert TzinfoFromUser(s, zones) == TzinfoStripped(s, zones);
    }
  }

  /** The checked parse keeps the idempotence of the original. */
  lemma ParseTzInputCheckedIdempotent(text: string, zones: set<string>)
    requires ParseTzInputChecked(text, zones).Some?
    ensures ParseTzInputChecked(ParseTzInputChecked(text, zones).value, zones) == ParseTzInputChecked(text, zones)
  {
    ParseTzInputIdempotent(text, zones);
  }

  /**
   * As written, `parse_tz_input("+24")` accepts and stores `+24:00`, which
   * `tzinfo_from_user` then refuses; the checked parse rejects it.
   */
  lemma AsWrittenAcceptsFullDay(text: string, zones: set<string>)
    requires text == "+24"
    ensures ParseTzInput(text, zones).Some?
    ensures TzinfoFromUser(ParseTzInput(text, zones).value, zones) == Err(OffsetOutOfRange)
    ensures ParseTzInputChecked(text, zones) == None
  {
    var g := OffsetGroups('+', text[1..], None);
    assert text == [text[0]] + text[1..];
    assert IsDigit(text[2]) && Unpadded(text);
    assert DigitsValue(g.hours) == 24 by {
      var d := g.hours;
      assert d[..|d| - 1] == d[..1] && d[..1][..0] == [];
      assert DigitsValue(d[..1]) == 2;
    }
    OffsetAcceptedByBoth(text, zones, g);
  }
}
