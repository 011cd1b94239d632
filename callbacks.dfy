/**
 * Inline-button payloads: how the bot writes `callback_data` when it builds a
 * keyboard, and how the callback handlers read it back with `split`.
 */
module Callbacks {
  import opened Common
  import opened Text
  import opened TimeZones

  /** What a pressed button asks for. */
  datatype Callback =
    | Snooze(minutes: int, id: int)
    | Done(id: int)
    | Delete(id: int)
    | TzChoice(offset: string)
    | TzOther
    | Pick(iso: string)
    | Answer(caption: string)

  /** An inline keyboard button: the text shown and the payload sent back. */
  datatype Button = Button(caption: string, data: string)

  /** The payload prefix under which the handlers take each kind of action. */
  function Prefix(c: Callback): string
  {
    match c
    case Snooze(_, _) => "snooze:"
    case Done(_) => "done:"
    case Delete(_) => "del:"
    case TzChoice(_) => "tz:"
    case TzOther => "tz:"
    case Pick(_) => "pick:"
    case Answer(_) => "answer:"
  }

  /** The payload each keyboard writes for an action. */
  function Encode(c: Callback): (r: string)
    ensures StartsWith(r, Prefix(c))
  {
    match c
    case Snooze(m, id) => "snooze:" + IntToString(m) + ":" + IntToString(id)
    case Done(id) => "done:" + IntToString(id)
    case Delete(id) => "del:" + IntToString(id)
    case TzChoice(v) => "tz:" + v
    case TzOther => "tz:other"
    case Pick(iso) => "pick:" + iso
    case Answer(caption) => "answer:" + caption
  }

  /** `int(s)` on a piece of a payload. */
  function IdOf(parts: seq<string>, k: nat): Option<int>
  {
    if k < |parts| then ParseInt(parts[k]) else None
  }

  /**
   * What the handler registered for the payload's prefix reads from it.
   * `None` stands for a payload no handler takes, or one on which the
   * handler raises (a missing piece, a piece `int()` rejects).
   */
  function Decode(data: string): (r: Option<Callback>)
    ensures r.Some? ==> StartsWith(data, Prefix(r.value))
  {
    if StartsWith(data, "tz:") then ReadTz(data)
    else if StartsWith(data, "del:") then ReadDelete(data)
    else if StartsWith(data, "snooze:") then ReadSnooze(data)
    else if StartsWith(data, "done:") then ReadDone(data)
    else if StartsWith(data, "pick:") then ReadPick(data)
    else if StartsWith(data, "answer:") then ReadAnswer(data)
    else None
  }

  /** `cb_tz`: everything after the first ':'; `other` asks for free input. */
  function ReadTz(data: string): Option<Callback>
  {
    var parts := SplitOnce(data, ":");
    if |parts| < 2 then None
    else if parts[1] == "other" then Some(TzOther)
    else Some(TzChoice(parts[1]))
  }

  /** `cb_inline` on `del:`: `int` of the second ':'-separated piece. */
  function ReadDelete(data: string): Option<Callback>
  {
    match IdOf(Split(data, ":"), 1)
    case Some(id) => Some(Delete(id))
    case None => None
  }

  /** `cb_inline` on `snooze:`: exactly three ':'-separated pieces, the last two integers. */
  function ReadSnooze(data: string): Option<Callback>
  {
    var parts := Split(data, ":");
    if |parts| != 3 then None
    else
      match (ParseInt(parts[1]), ParseInt(parts[2]))
      case (Some(m), Some(id)) => Some(Snooze(m, id))
      case _ => None
  }

  /** `cb_inline` on `done:`: `int` of the second ':'-separated piece. */
  function ReadDone(data: string): Option<Callback>
  {
    match IdOf(Split(data, ":"), 1)
    case Some(id) => Some(Done(id))
    case None => None
  }

  /** `cb_pick`: the piece after the first `pick:`, up to the next one. */
  function ReadPick(data: string): Option<Callback>
  {
    var parts := Split(data, "pick:");
    if |parts| < 2 then None else Some(Pick(parts[1]))
  }

  /** `cb_answer`: everything after the first `answer:`. */
  function ReadAnswer(data: string): Option<Callback>
  {
    var parts := SplitOnce(data, "answer:");
    if |parts| < 2 then None else Some(Answer(parts[1]))
  }

  /**
   * The payloads that read back as written: a timezone value other than
   * `other`, and a picked time that does not itself hold `pick:`.
   */
  predicate RoundTrips(c: Callback)
  {
    (c.TzChoice? ==> c.offset != "other") && (c.Pick? ==> !Occurs(c.iso, "pick:"))
  }

  /** `prefix + ':' + rest` split on ':' after a prefix free of ':'. */
  lemma SplitAtPrefix(prefix: string, rest: string)
    requires ':' !in prefix
    ensures Split(prefix + ":" + rest, ":") == [prefix] + Split(rest, ":")
    ensures SplitOnce(prefix + ":" + rest, ":") == [prefix, rest]
  {
    SplitAfter(prefix, ':', rest);
    FindAfter(prefix, ':', rest);
    var s := prefix + ":" + rest;
    assert s[..|prefix|] == prefix && s[|prefix| + 1..] == rest;
  }

  /** A payload of two ':'-free pieces splits into exactly those pieces. */
  lemma TwoPieces(head: string, a: string)
    requires ':' !in head && ':' !in a
    ensures Split(head + ":" + a, ":") == [head, a]
  {
    SplitAtPrefix(head, a);
    SplitAbsent(a, ':');
  }

  /** A payload that differs from a prefix at some position does not start with it. */
  lemma MismatchAt(s: string, prefix: string, i: nat)
    requires i < |prefix| && i < |s| && s[i] != prefix[i]
    ensures !StartsWith(s, prefix)
  {
  }

  lemma RouteSnooze(rest: string)
    ensures Decode("snooze:" + rest) == ReadSnooze("snooze:" + rest)
  {
    var s := "snooze:" + rest;
    assert s[..7] == "snooze:";
    MismatchAt(s, "tz:", 0);
    MismatchAt(s, "del:", 0);
  }

  lemma RouteDone(rest: string)
    ensures Decode("done:" + rest) == ReadDone("done:" + rest)
  {
    var s := "done:" + rest;
    assert s[..5] == "done:";
    MismatchAt(s, "tz:", 0);
    MismatchAt(s, "del:", 1);
    MismatchAt(s, "snooze:", 0);
  }

  lemma RouteDelete(rest: string)
    ensures Decode("del:" + rest) == ReadDelete("del:" + rest)
  {
    var s := "del:" + rest;
    assert s[..4] == "del:";
    MismatchAt(s, "tz:", 0);
  }

  /** A snooze payload whose two pieces are integers reads back as those integers. */
  lemma ReadSnoozePieces(a: string, b: string, m: int, id: int)
    requires ':' !in a && ':' !in b && ParseInt(a) == Some(m) && ParseInt(b) == Some(id)
    ensures ReadSnooze("snooze:" + (a + ":" + b)) == Some(Snooze(m, id))
  {
    var s := "snooze:" + (a + ":" + b);
    assert s == "snooze" + ":" + (a + ":" + b);
    assert Split(s, ":") == ["snooze", a, b] by {
      SplitAtPrefix("snooze", a + ":" + b);
      TwoPieces(a, b);
    }
    ReadSnoozeOfPieces(s, a, b, m, id);
  }

  lemma ReadSnoozeOfPieces(s: string, a: string, b: string, m: int, id: int)
    requires Split(s, ":") == ["snooze", a, b] && ParseInt(a) == Some(m) && ParseInt(b) == Some(id)
    ensures ReadSnooze(s) == Some(Snooze(m, id))
  {
  }

  lemma DecodeSnooze(m: int, id: int)
    ensures Decode(Encode(Snooze(m, id))) == Some(Snooze(m, id))
  {
    var a, b := IntToString(m), IntToString(id);
    assert Encode(Snooze(m, id)) == "snooze:" + (a + ":" + b);
    RouteSnooze(a + ":" + b);
    ParseIntToString(m);
    ParseIntToString(id);
    ReadSnoozePieces(a, b, m, id);
  }

  lemma DecodeDone(id: int)
    ensures Decode(Encode(Done(id))) == Some(Done(id))
  {
    var a := IntToString(id);
    var s := Encode(Done(id));
    assert s == "done:" + a;
    RouteDone(a);
    assert Split(s, ":") == ["done", a] by {
      assert s == "done" + ":" + a;
      TwoPieces("done", a);
    }
    assert ParseInt(a) == Some(id) by { ParseIntToString(id); }
  }

  lemma DecodeDelete(id: int)
    ensures Decode(Encode(Delete(id))) == Some(Delete(id))
  {
    var a := IntToString(id);
    var s := Encode(Delete(id));
    assert s == "del:" + a;
    RouteDelete(a);
    assert Split(s, ":") == ["del", a] by {
      assert s == "del" + ":" + a;
      TwoPieces("del", a);
    }
    assert ParseInt(a) == Some(id) by { ParseIntToString(id); }
  }

  lemma DecodeTz(c: Callback)
    requires (c.TzChoice? && c.offset != "other") || c.TzOther?
    ensures Decode(Encode(c)) == Some(c)
  {
    var v := if c.TzOther? then "other" else c.offset;
    var s := Encode(c);
    assert Decode(s) == ReadTz(s) by {
      assert s[..3] == "tz:";
    }
    assert ReadTz(s) == Some(c) by {
      assert s == "tz" + ":" + v;
      SplitAtPrefix("tz", v);
    }
  }

  lemma RoutePick(rest: string)
    ensures Decode("pick:" + rest) == ReadPick("pick:" + rest)
  {
    var s := "pick:" + rest;
    assert s[..5] == "pick:";
    MismatchAt(s, "tz:", 0);
    MismatchAt(s, "del:", 0);
    MismatchAt(s, "snooze:", 0);
    MismatchAt(s, "done:", 0);
  }

  lemma RouteAnswer(rest: string)
    ensures Decode("answer:" + rest) == ReadAnswer("answer:" + rest)
  {
    var s := "answer:" + rest;
    assert s[..7] == "answer:";
    MismatchAt(s, "tz:", 0);
    MismatchAt(s, "del:", 0);
    MismatchAt(s, "snooze:", 0);
    MismatchAt(s, "done:", 0);
    MismatchAt(s, "pick:", 0);
  }

  lemma DecodePick(iso: string)
    ensures Decode(Encode(Pick(iso))) == Some(Pick(iso)) <==> !Occurs(iso, "pick:")
  {
    var s := Encode(Pick(iso));
    RoutePick(iso);
    var parts := Split(s, "pick:");
    assert parts == [""] + Split(iso, "pick:") by {
      FindAtStart(s, "pick:");
      assert s[..0] == "" && s[5..] == iso;
    }
    if Occurs(iso, "pick:") {
      var k := Find(iso, "pick:").value;
      assert Split(iso, "pick:")[0] == iso[..k];
      assert parts[1] != iso by { assert |parts[1]| == k < |iso|; }
    } else {
      assert Split(iso, "pick:") == [iso];
    }
  }

  /** Everything after the first `answer:` is the caption, whatever it holds. */
  lemma ReadAnswerAfterPrefix(rest: string)
    ensures ReadAnswer("answer:" + rest) == Some(Answer(rest))
  {
    var s := "answer:" + rest;
    FindAtStart(s, "answer:");
    assert s[7..] == rest;
  }

  lemma DecodeAnswer(caption: string)
    ensures Decode(Encode(Answer(caption))) == Some(Answer(caption))
  {
    RouteAnswer(caption);
    ReadAnswerAfterPrefix(caption);
  }

  /** Every payload a keyboard writes reads back as the same action (the two exceptions aside). */
  lemma DecodeEncode(c: Callback)
    requires RoundTrips(c)
    ensures Decode(Encode(c)) == Some(c)
  {
    match c
    case Snooze(m, id) => DecodeSnooze(m, id);
    case Done(id) => DecodeDone(id);
    case Delete(id) => DecodeDelete(id);
    case TzChoice(_) => DecodeTz(c);
    case TzOther => DecodeTz(c);
    case Pick(iso) => DecodePick(iso);
    case Answer(caption) => DecodeAnswer(caption);
  }

  /** Distinct actions get distinct payloads. */
  lemma EncodeInjective(c: Callback, d: Callback)
    requires RoundTrips(c) && RoundTrips(d) && Encode(c) == Encode(d)
    ensures c == d
  {
    DecodeEncode(c);
    DecodeEncode(d);
  }

  // ---------- keyboards ----------

  /**
   * The buttons under a fired reminder (`fire_reminder`): snooze by 10 and by
   * 60 minutes, and a done button for a one-off reminder only.
   */
  function FireKeyboard(remId: int, kind: string): (rows: seq<seq<Button>>)
    ensures |rows| == if kind == "oneoff" then 2 else 1
  {
    [[Button("Через 10 мин", Encode(Snooze(10, remId))), Button("Через 1 час", Encode(Snooze(60, remId)))]]
    + (if kind == "oneoff" then [[Button("✅", Encode(Done(remId)))]] else [])
  }

  /** Each button under a fired reminder acts on that reminder. */
  lemma FireKeyboardActions(remId: int, kind: string)
    ensures var rows := FireKeyboard(remId, kind);
      Decode(rows[0][0].data) == Some(Snooze(10, remId))
      && Decode(rows[0][1].data) == Some(Snooze(60, remId))
      && (kind == "oneoff" ==> Decode(rows[1][0].data) == Some(Done(remId)))
  {
    DecodeSnooze(10, remId);
    DecodeSnooze(60, remId);
    DecodeDone(remId);
  }

  /** Every caption on the timezone keyboard is a city or the free-input button, and every city is on it. */
  lemma TzRowsCovered()
    ensures forall i, j | 0 <= i < |TzRows| && 0 <= j < |TzRows[i]| ::
      TzRows[i][j] == OtherLabel || TzRows[i][j] in CityToOffset
    ensures forall k | k in CityToOffset :: exists i, j | 0 <= i < |TzRows| && 0 <= j < |TzRows[i]| :: TzRows[i][j] == k
  {
    forall k | k in CityToOffset
      ensures exists i, j | 0 <= i < |TzRows| && 0 <= j < |TzRows[i]| :: TzRows[i][j] == k
    {
      if k == TzRows[0][0] { assert TzRows[0][0] == k; }
      else if k == TzRows[0][1] { assert TzRows[0][1] == k; }
      else if k == TzRows[1][0] { assert TzRows[1][0] == k; }
      else if k == TzRows[1][1] { assert TzRows[1][1] == k; }
      else if k == TzRows[2][0] { assert TzRows[2][0] == k; }
      else if k == TzRows[2][1] { assert TzRows[2][1] == k; }
      else if k == TzRows[3][0] { assert TzRows[3][0] == k; }
      else if k == TzRows[3][1] { assert TzRows[3][1] == k; }
      else { assert TzRows[4][0] == k; }
    }
  }

  /** The button for one caption of the timezone keyboard. */
  function TzButton(caption: string): Button
    requires caption == OtherLabel || caption in CityToOffset
  {
    if caption == OtherLabel then Button(caption, Encode(TzOther))
    else Button(caption, Encode(TzChoice(CityToOffset[caption])))
  }

  /** `build_tz_inline_kb`: one button per caption, row by row. */
  method TzKeyboard() returns (rows: seq<seq<Button>>)
    ensures |rows| == |TzRows|
    ensures forall i | 0 <= i < |rows| :: |rows[i]| == |TzRows[i]|
    ensures forall i, j | 0 <= i < |rows| && 0 <= j < |rows[i]| :: rows[i][j] == TzButton(TzRows[i][j])
  {
    TzRowsCovered();
    rows := [];
    for r := 0 to |TzRows|
      invariant |rows| == r
      invariant forall i | 0 <= i < r :: |rows[i]| == |TzRows[i]|
      invariant forall i, j | 0 <= i < r && 0 <= j < |rows[i]| :: rows[i][j] == TzButton(TzRows[i][j])
    {
      var buttons: seq<Button> := [];
      for c := 0 to |TzRows[r]|
        invariant |buttons| == c
        invariant forall j | 0 <= j < c :: buttons[j] == TzButton(TzRows[r][j])
      {
        var caption := TzRows[r][c];
        if caption == OtherLabel {
          buttons := buttons + [Button(caption, "tz:other")];
        } else {
          buttons := buttons + [Button(caption, "tz:" + CityToOffset[caption])];
        }
      }
      rows := rows + [buttons];
    }
  }

  /**
   * A timezone button asks for free input, or carries a city's offset that
   * `parse_tz_input` keeps as it is and `tzinfo_from_user` turns into a fixed
   * offset.
   */
  lemma TzButtonDecodes(caption: string, zones: set<string>)
    requires caption == OtherLabel || caption in CityToOffset
    ensures caption == OtherLabel ==> Decode(TzButton(caption).data) == Some(TzOther)
    ensures caption != OtherLabel ==>
      var v := CityToOffset[caption];
      Decode(TzButton(caption).data) == Some(TzChoice(v))
      && ParseTzInput(v, zones) == Some(v)
      && IsNormalOffset(v) && TzinfoFromUser(v, zones) == Ok(Fixed(NormalOffsetMinutes(v)))
  {
    if caption == OtherLabel {
      DecodeTz(TzOther);
    } else {
      var v := CityToOffset[caption];
      CityOffsetsNormal();
      CityOffsetsInRange();
      assert v != "other" by { assert |v| == 6; }
      DecodeTz(TzChoice(v));
      NormalOffsetAccepted(v, zones);
      NormalOffsetTzinfo(v, zones);
    }
  }

  /** The delete button `cmd_list` puts under each listed reminder. */
  function DeleteButton(id: int): Button
  {
    Button("🗑 Удалить", Encode(Delete(id)))
  }

  /** The keyboard of `cmd_list`: one row with one delete button per listed reminder, in order. */
  method ListKeyboard(ids: seq<int>) returns (rows: seq<seq<Button>>)
    ensures |rows| == |ids|
    ensures forall k | 0 <= k < |ids| :: rows[k] == [DeleteButton(ids[k])]
  {
    rows := [];
    for k := 0 to |ids|
      invariant |rows| == k
      invariant forall i | 0 <= i < k :: rows[i] == [DeleteButton(ids[i])]
    {
      rows := rows + [[Button("🗑 Удалить", "del:" + IntToString(ids[k]))]];
    }
  }

  /**
   * One entry of the model's `variants`: an object with optional `label`,
   * `text` and `iso_datetime` strings, or any other value, shown as `str(v)`.
   */
  datatype Variant = Structured(caption: Option<string>, text: Option<string>, iso: Option<string>) | Plain(shown: string)

  /** Python truthiness of an optional string: present and non-empty. */
  predicate Truthy(o: Option<string>)
  {
    o.Some? && o.value != []
  }

  /** `v.get("label") or v.get("text") or v.get("iso_datetime") or "Выбрать"`. */
  function VariantLabel(v: Variant): (caption: string)
    ensures v.Structured? ==> caption != []
  {
    match v
    case Structured(l, t, iso) =>
      if Truthy(l) then l.value else if Truthy(t) then t.value else if Truthy(iso) then iso.value else "Выбрать"
    case Plain(shown) => shown
  }

  /** The button for one variant: pick the time when it has one, otherwise send the caption back as the answer. */
  function VariantButton(v: Variant): Button
  {
    match v
    case Structured(_, _, iso) =>
      Button(VariantLabel(v), if Truthy(iso) then Encode(Pick(iso.value)) else Encode(Answer(VariantLabel(v))))
    case Plain(shown) => Button(shown, Encode(Answer(shown)))
  }

  function Min(a: int, b: int): int { if a < b then a else b }

  /** The clarification keyboard: one row per variant, at most six. */
  method VariantKeyboard(variants: seq<Variant>) returns (rows: seq<seq<Button>>)
    ensures |rows| == Min(|variants|, 6)
    ensures forall k | 0 <= k < |rows| :: rows[k] == [VariantButton(variants[k])]
  {
    rows := [];
    var shown := if |variants| < 6 then variants else variants[..6];
    for k := 0 to |shown|
      invariant |rows| == k
      invariant forall i | 0 <= i < k :: rows[i] == [VariantButton(shown[i])]
    {
      var v := shown[k];
      match v
      case Structured(_, _, iso) =>
        var caption := VariantLabel(v);
        var data := if Truthy(iso) then "pick:" + iso.value else "answer:" + caption;
        rows := rows + [[Button(caption, data)]];
      case Plain(s) =>
        rows := rows + [[Button(s, "answer:" + s)]];
    }
  }

  /** A variant's button picks its time when it has one and answers with its caption otherwise. */
  lemma VariantButtonDecodes(v: Variant)
    requires v.Structured? && Truthy(v.iso) ==> !Occurs(v.iso.value, "pick:")
    ensures v.Structured? && Truthy(v.iso) ==> Decode(VariantButton(v).data) == Some(Pick(v.iso.value))
    ensures v.Plain? ==> Decode(VariantButton(v).data) == Some(Answer(v.shown))
    ensures v.Structured? && !Truthy(v.iso) ==> Decode(VariantButton(v).data) == Some(Answer(VariantLabel(v)))
  {
    match v
    case Structured(_, _, iso) =>
      if Truthy(iso) { DecodePick(iso.value); } else { DecodeAnswer(VariantLabel(v)); }
    case Plain(s) => DecodeAnswer(s);
  }
}
