/**
  The editors of the input preferences (DashboardViewModel.cs, DashboardViewModel.Input.cs): three
  numbers, each with the text it is edited as. Setting either one sets the other.
 */
module NumberTexts {
  import opened Options
  import opened Texts

  const INT_MAX := 0x7FFF_FFFF

  predicate Digit(c: char) { '0' <= c <= '9' }

  /** `value.ToString(CultureInfo.InvariantCulture)`. */
  function Printed(n: int): string {
    if n < 0 then "-" + Digits(-n) else Digits(n)
  }

  function Digits(n: nat): (s: string)
    ensures s != "" && forall i :: 0 <= i < |s| ==> Digit(s[i])
  {
    (if n < 10 then "" else Digits(n / 10)) + [(('0' as int) + n % 10) as char]
  }

  function DigitValue(c: char): nat
    requires Digit(c)
  {
    c as int - '0' as int
  }

  function Value(digits: string): nat
    requires forall i :: 0 <= i < |digits| ==> Digit(digits[i])
  {
    if digits == "" then 0 else 10 * Value(digits[..|digits| - 1]) + DigitValue(digits[|digits| - 1])
  }

  /** The number parser skips NUL characters at the end. */
  function WithoutNulls(s: string): string {
    if s != "" && s[|s| - 1] == '\0' then WithoutNulls(s[..|s| - 1]) else s
  }

  /** `int.TryParse` with NumberStyles.None: digits only, within 32 bits. */
  function TryParse(s: string): Option<int> {
    var digits := WithoutNulls(s);
    if digits != "" && (forall i :: 0 <= i < |digits| ==> Digit(digits[i])) && Value(digits) <= INT_MAX
    then Some(Value(digits)) else None
  }

  /** `TryReadNumber`. */
  function TryReadNumber(text: string, minimum: int, maximum: int): Option<int> {
    var n := TryParse(TrimChars(text));
    if n.Some? && minimum <= n.value <= maximum then n else None
  }

  lemma {:induction false} ValueOfDigits(n: nat)
    ensures Value(Digits(n)) == n
  {
    var s := Digits(n);
    if n < 10 {
      assert Value(s[..0]) == 0;
    } else {
      ValueOfDigits(n / 10);
      assert s[..|s| - 1] == Digits(n / 10);
    }
  }

  lemma TrimKeeps(s: string)
    requires s != "" && !IsWhiteSpace(s[0]) && !IsWhiteSpace(s[|s| - 1])
    ensures TrimChars(s) == s
  {
  }

  lemma ParsePrinted(n: int)
    ensures TryParse(Printed(n)) == if 0 <= n <= INT_MAX then Some(n) else None
  {
    var s := Printed(n);
    assert s[|s| - 1] != '\0';
    if n >= 0 {
      ValueOfDigits(n);
    } else {
      assert !Digit(s[0]);
    }
  }

  lemma PrintedIsTrimmed(n: int)
    ensures TrimChars(Printed(n)) == Printed(n)
  {
    var s := Printed(n);
    assert Digit(s[|s| - 1]) && (Digit(s[0]) || s[0] == '-');
    TrimKeeps(s);
  }

  /** White space around a text makes no difference to what it reads as. */
  lemma SpaceIsIgnored(before: string, text: string, after: string, minimum: int, maximum: int)
    requires OnlySpace(before) && OnlySpace(after)
    ensures TryReadNumber(before + text + after, minimum, maximum) == TryReadNumber(text, minimum, maximum)
  {
    TrimIgnoresSpace(before, text, after);
  }

  predicate OnlyDigits(s: string) {
    s != "" && forall i :: 0 <= i < |s| ==> Digit(s[i])
  }

  predicate OnlyNulls(s: string) {
    forall i :: 0 <= i < |s| ==> s[i] == '\0'
  }

  lemma {:induction false} NullsAreSkipped(digits: string, nulls: string)
    requires OnlyDigits(digits) && OnlyNulls(nulls)
    ensures WithoutNulls(digits + nulls) == digits
  {
    if nulls == "" {
      assert digits + nulls == digits;
      assert Digit(digits[|digits| - 1]);
    } else {
      var n := |nulls| - 1;
      assert (digits + nulls)[..|digits + nulls| - 1] == digits + nulls[..n];
      NullsAreSkipped(digits, nulls[..n]);
    }
  }

  lemma {:induction false} NullsSplit(s: string) returns (nulls: string)
    ensures s == WithoutNulls(s) + nulls && OnlyNulls(nulls)
  {
    nulls := "";
    if s != "" && s[|s| - 1] == '\0' {
      var rest := NullsSplit(s[..|s| - 1]);
      nulls := rest + [s[|s| - 1]];
      assert s == s[..|s| - 1] + [s[|s| - 1]];
    }
  }

  /** Leading zeros are worth nothing. */
  lemma {:induction false} LeadingZero(digits: string)
    requires OnlyDigits(digits)
    ensures Value("0" + digits) == Value(digits)
  {
    var s, n := "0" + digits, |digits| - 1;
    assert s[..|s| - 1] == "0" + digits[..n];
    if n == 0 {
      assert s[..1] == "0" && "0"[..0] == "";
      assert Value("0") == 10 * Value("0"[..0]) + DigitValue('0') == 0;
      assert digits[..0] == "";
    } else {
      LeadingZero(digits[..n]);
    }
  }

  /**
    Digits in range are read, with white space around them and NUL characters behind them; and a text that
    reads as a number is nothing but that.
   */
  lemma DigitsAreRead(before: string, digits: string, nulls: string, after: string, minimum: int, maximum: int)
    requires OnlySpace(before) && OnlyDigits(digits) && OnlyNulls(nulls) && OnlySpace(after) && maximum <= INT_MAX
    ensures TryReadNumber(before + (digits + nulls) + after, minimum, maximum) ==
            if minimum <= Value(digits) <= maximum then Some(Value(digits)) else None
  {
    SpaceIsIgnored(before, digits + nulls, after, minimum, maximum);
    NullsAreSkipped(digits, nulls);
    var s := digits + nulls;
    assert s[0] == digits[0] && s[|s| - 1] == if nulls == "" then digits[|digits| - 1] else '\0';
    TrimKeeps(s);
  }

  lemma NothingElseIsRead(text: string, minimum: int, maximum: int)
    returns (before: string, digits: string, nulls: string, after: string)
    requires TryReadNumber(text, minimum, maximum).Some?
    ensures text == before + (digits + nulls) + after
    ensures OnlySpace(before) && OnlyDigits(digits) && OnlyNulls(nulls) && OnlySpace(after)
    ensures TryReadNumber(text, minimum, maximum) == Some(Value(digits)) && minimum <= Value(digits) <= maximum
  {
    before, after := TrimSplits(text);
    digits := WithoutNulls(TrimChars(text));
    nulls := NullsSplit(TrimChars(text));
  }

  /** A printed number is read back exactly when it is in range: in particular a negative one never is. */
  lemma ReadPrinted(n: int, minimum: nat, maximum: int)
    requires maximum <= INT_MAX
    ensures TryReadNumber(Printed(n), minimum, maximum) == if minimum <= n <= maximum then Some(n) else None
  {
    PrintedIsTrimmed(n);
    ParsePrinted(n);
  }
}

module Dashboard {
  import opened Options
  import opened Preferences
  import opened SettingsServices
  import opened NumberTexts
  import opened KeepAliveLoop

  datatype Field = Interval | Key | Distance

  function Minimum(f: Field): nat { match f case Interval => 20 case Key => 124 case Distance => 1 }
  function Maximum(f: Field): nat { match f case Interval => 86400 case Key => 135 case Distance => 5 }

  /** How a number is printed, and how the text of a field is read. */
  datatype Format = Format(show: int -> string, read: (Field, string) -> Option<int>)

  ghost predicate PrintedAreRead(format: Format) {
    forall f: Field, n: int :: format.read(f, format.show(n)) == if Minimum(f) <= n <= Maximum(f) then Some(n) else None
  }

  ghost predicate OnlyRangeIsRead(format: Format) {
    forall f: Field, text: string :: format.read(f, text).Some? ==> Minimum(f) <= format.read(f, text).value <= Maximum(f)
  }

  ghost predicate Faithful(format: Format) {
    PrintedAreRead(format) && OnlyRangeIsRead(format)
  }

  function ReadField(f: Field, text: string): (n: Option<int>)
    ensures n.Some? ==> Minimum(f) <= n.value <= Maximum(f)
  {
    TryReadNumber(text, Minimum(f), Maximum(f))
  }

  /** The format of the invariant culture. */
  function Invariant(): (format: Format)
    ensures Faithful(format)
  {
    PrintedFieldIsRead();
    Format(Printed, ReadField)
  }

  lemma PrintedFieldIsRead()
    ensures forall f: Field, n: int :: ReadField(f, Printed(n)) == if Minimum(f) <= n <= Maximum(f) then Some(n) else None
  {
    forall f: Field, n: int ensures ReadField(f, Printed(n)) == if Minimum(f) <= n <= Maximum(f) then Some(n) else None {
      ReadPrinted(n, Minimum(f), Maximum(f));
    }
  }

  type NumberFormat = format: Format | Faithful(format) witness Invariant()

  /** One editor: the text as entered, and the number. */
  datatype Entry = Entry(text: string, number: int)

  datatype Entries = Entries(interval: Entry, key: Entry, distance: Entry) {
    function At(f: Field): Entry {
      match f case Interval => interval case Key => key case Distance => distance
    }

    function With(f: Field, e: Entry): Entries {
      match f
      case Interval => this.(interval := e)
      case Key => this.(key := e)
      case Distance => this.(distance := e)
    }
  }

  const INITIAL: Entries := Entries(Entry("60", 60), Entry("126", 126), Entry("2", 2))

  /** A text that reads as a number says what the number is. */
  predicate Linked(format: Format, f: Field, e: Entry) {
    format.read(f, e.text).Some? ==> e.number == format.read(f, e.text).value
  }

  ghost predicate AllLinked(format: Format, entries: Entries) {
    forall f: Field :: Linked(format, f, entries.At(f))
  }

  /** A number as its editor shows it. */
  function Fresh(format: Format, n: int): Entry {
    Entry(format.show(n), n)
  }

  lemma FreshReads(format: Format, f: Field, n: int)
    requires Faithful(format)
    ensures format.read(f, format.show(n)) == if Minimum(f) <= n <= Maximum(f) then Some(n) else None
  {
  }

  lemma FreshIsLinked(format: Format, f: Field, n: int)
    requires Faithful(format)
    ensures Linked(format, f, Fresh(format, n))
  {
  }

  /** What a listener of a property change does: edit a text, or assign a number. */
  datatype Edit = TextEdit(field: Field, text: string) | NumberEdit(field: Field, number: int)

  /** The listeners only edit texts, as the views do. */
  predicate OnlyTexts(listeners: seq<Option<Edit>>) {
    forall i :: 0 <= i < |listeners| ==> listeners[i].None? || listeners[i].value.TextEdit?
  }

  /** A number that is assigned while a text is edited, and that its own text does not read as. */
  predicate Stray(format: Format, f: Field, e: Entry, editing: bool, n: int) {
    editing && n != e.number && format.read(f, e.text).Some? && format.read(f, e.text).value != n
  }

  // ----- the setters, as functions of the draft -----

  /**
    `listeners` is what the listeners of property changes will do: each change consumes the edits up to the
    next None. `strayed` are the fields whose last change was a stray number.
   */
  datatype Draft = Draft(
    entries: Entries, editing: bool, loading: bool, unsaved: bool, listeners: seq<Option<Edit>>, strayed: set<Field>)

  /** PropertyChanged is raised. */
  function Raised(format: Format, d: Draft): (r: Draft)
    ensures |r.listeners| <= |d.listeners|
    decreases |d.listeners|, 0
  {
    if d.listeners == [] then d
    else
      var next, rest := d.listeners[0], d.(listeners := d.listeners[1..]);
      match next
      case None => rest
      case Some(TextEdit(f, text)) => Raised(format, TextSet(format, rest, f, text))
      case Some(NumberEdit(f, n)) => Raised(format, NumberSet(format, rest, f, n))
  }

  /** `MarkDirty`. */
  function Dirtied(format: Format, d: Draft): (r: Draft)
    ensures |r.listeners| <= |d.listeners|
    decreases |d.listeners|, 1
  {
    if !d.loading && !d.unsaved then Raised(format, d.(unsaved := true)) else d
  }

  /** The setters of IntervalSecondsText, VirtualKeyCodeText and MousePixelDeltaText. */
  function TextSet(format: Format, d: Draft, f: Field, text: string): (r: Draft)
    ensures |r.listeners| <= |d.listeners|
    decreases |d.listeners|, 6
  {
    var e := d.entries.At(f);
    if e.text == text then d
    else TextChanged(format, d.(entries := d.entries.With(f, e.(text := text)), strayed := d.strayed - {f}), f)
  }

  /** A text setter once the text has changed. */
  function TextChanged(format: Format, d: Draft, f: Field): (r: Draft)
    ensures |r.listeners| <= |d.listeners|
    decreases |d.listeners|, 5
  {
    var read := TextRead(format, Raised(format, d).(editing := true), f);
    Raised(format, Dirtied(format, read.(editing := false)))
  }

  /** What a text reads as becomes the number. */
  function TextRead(format: Format, d: Draft, f: Field): (r: Draft)
    requires d.editing
    ensures |r.listeners| <= |d.listeners|
    decreases |d.listeners|, 4
  {
    var n := format.read(f, d.entries.At(f).text);
    if n.Some? then NumberSet(format, d, f, n.value) else d
  }

  /** The setters of IntervalSeconds, VirtualKeyCode and MousePixelDelta. */
  function NumberSet(format: Format, d: Draft, f: Field, n: int): (r: Draft)
    ensures |r.listeners| <= |d.listeners|
    decreases |d.listeners|, if d.editing then 3 else 8
  {
    var e := d.entries.At(f);
    if e.number == n then d
    else Raised(format, NumberChanged(format, NumberWritten(format, d, f, n), f))
  }

  function NumberWritten(format: Format, d: Draft, f: Field, n: int): Draft {
    var e := d.entries.At(f);
    d.(entries := d.entries.With(f, e.(number := n)),
       strayed := if Stray(format, f, e, d.editing, n) then d.strayed + {f} else d.strayed - {f})
  }

  /** The change handlers of the three numbers. */
  function NumberChanged(format: Format, d: Draft, f: Field): (r: Draft)
    ensures |r.listeners| <= |d.listeners|
    decreases |d.listeners|, if d.editing then 2 else 7
  {
    Dirtied(format, if d.editing then d else TextSet(format, d, f, format.show(d.entries.At(f).number)))
  }

  // ----- what every setter keeps -----

  /**
    Apart from the fields in `pending`, whose texts are about to be read: a text that reads as a number is
    linked to it, except exactly in the strayed fields.
   */
  ghost predicate Tracked(format: Format, d: Draft, pending: set<Field>) {
    forall f: Field ::
      && (f in d.strayed ==> !Linked(format, f, d.entries.At(f)))
      && (f !in d.strayed && f !in pending ==> Linked(format, f, d.entries.At(f)))
  }

  /** Outside of loading no change goes unrecorded, and an edit under way stays or ends. */
  predicate Recorded(d: Draft, r: Draft) {
    && r.loading == d.loading && (r.editing ==> d.editing)
    && (d.loading || r.unsaved || (r.entries == d.entries && !d.unsaved))
  }

  /** Listeners that only edit texts leave no field strayed, but for those in `more`. */
  predicate StraysOnly(d: Draft, r: Draft, more: set<Field>) {
    OnlyTexts(d.listeners) ==> OnlyTexts(r.listeners) && r.strayed <= d.strayed + more
  }

  lemma {:induction false} RaisedKeeps(format: Format, d: Draft, pending: set<Field>)
    requires Faithful(format) && Tracked(format, d, pending)
    ensures var r := Raised(format, d); Tracked(format, r, pending) && Recorded(d, r) && StraysOnly(d, r, {})
    decreases |d.listeners|, 0
  {
    if d.listeners != [] {
      var next, rest := d.listeners[0], d.(listeners := d.listeners[1..]);
      assert OnlyTexts(d.listeners) ==> OnlyTexts(rest.listeners) && (next.None? || next.value.TextEdit?);
      match next
      case None =>
      case Some(TextEdit(f, text)) =>
        TextSetKeeps(format, rest, f, text, pending);
        RaisedKeeps(format, TextSet(format, rest, f, text), pending);
      case Some(NumberEdit(f, n)) =>
        NumberSetKeeps(format, rest, f, n, pending);
        RaisedKeeps(format, NumberSet(format, rest, f, n), pending);
    }
  }

  lemma {:induction false} DirtiedKeeps(format: Format, d: Draft, pending: set<Field>)
    requires Faithful(format) && Tracked(format, d, pending)
    ensures var r := Dirtied(format, d);
            && Tracked(format, r, pending) && Recorded(d, r) && StraysOnly(d, r, {})
            && (d.loading || r.unsaved)
    decreases |d.listeners|, 1
  {
    if !d.loading && !d.unsaved {
      RaisedKeeps(format, d.(unsaved := true), pending);
    }
  }

  /** After a text has changed its field is settled: linked, or strayed by a listener. */
  lemma {:induction false} TextSetKeeps(format: Format, d: Draft, f: Field, text: string, pending: set<Field>)
    requires Faithful(format) && Tracked(format, d, pending)
    ensures var r := TextSet(format, d, f, text);
            && Tracked(format, r, if text == d.entries.At(f).text then pending else pending - {f})
            && Recorded(d, r) && StraysOnly(d, r, {})
    decreases |d.listeners|, 6
  {
    var e := d.entries.At(f);
    if e.text != text {
      var d1 := d.(entries := d.entries.With(f, e.(text := text)), strayed := d.strayed - {f});
      TextChangedKeeps(format, d1, f, pending + {f});
      assert pending + {f} - {f} == pending - {f};
    }
  }

  lemma {:induction false} TextChangedKeeps(format: Format, d: Draft, f: Field, pending: set<Field>)
    requires Faithful(format) && Tracked(format, d, pending)
    ensures var r := TextChanged(format, d, f);
            && Tracked(format, r, pending - {f}) && !r.editing && r.loading == d.loading && (d.loading || r.unsaved)
            && StraysOnly(d, r, {})
    decreases |d.listeners|, 5
  {
    RaisedKeeps(format, d, pending);
    var d1 := Raised(format, d).(editing := true);
    TextReadKeeps(format, d1, f, pending);
    var d2 := TextRead(format, d1, f).(editing := false);
    DirtiedKeeps(format, d2, pending - {f});
    RaisedKeeps(format, Dirtied(format, d2), pending - {f});
  }

  lemma {:induction false} TextReadKeeps(format: Format, d: Draft, f: Field, pending: set<Field>)
    requires Faithful(format) && Tracked(format, d, pending) && d.editing
    ensures var r := TextRead(format, d, f);
            && Tracked(format, r, pending - {f}) && r.loading == d.loading && StraysOnly(d, r, {})
    decreases |d.listeners|, 4
  {
    var n := format.read(f, d.entries.At(f).text);
    if n.Some? {
      NumberSetKeeps(format, d, f, n.value, pending);
    }
  }

  /** A new number settles its field at once while a text is edited: as linked or as strayed. */
  lemma NumberWrittenIsTracked(format: Format, d: Draft, f: Field, n: int, pending: set<Field>)
    requires Tracked(format, d, pending) && n != d.entries.At(f).number
    ensures var r := NumberWritten(format, d, f, n);
            && Tracked(format, r, pending + {f})
            && (d.editing ==> Tracked(format, r, pending - {f}))
            && (!d.editing ==> f !in r.strayed)
            && r.strayed <= d.strayed + (if Stray(format, f, d.entries.At(f), d.editing, n) then {f} else {})
  {
  }

  lemma {:induction false} NumberSetKeeps(format: Format, d: Draft, f: Field, n: int, pending: set<Field>)
    requires Faithful(format) && Tracked(format, d, pending)
    ensures var r, e := NumberSet(format, d, f, n), d.entries.At(f);
            && Tracked(format, r, if n == e.number then pending else pending - {f})
            && Recorded(d, r) && StraysOnly(d, r, if Stray(format, f, e, d.editing, n) then {f} else {})
    decreases |d.listeners|, if d.editing then 3 else 8
  {
    if d.entries.At(f).number != n {
      var d1 := NumberWritten(format, d, f, n);
      NumberWrittenIsTracked(format, d, f, n, pending);
      NumberChangedKeeps(format, d1, f, pending);
      RaisedKeeps(format, NumberChanged(format, d1, f), pending - {f});
    }
  }

  /** A number has changed: while a text is edited its field is settled already, otherwise its text is set. */
  lemma {:induction false} NumberChangedKeeps(format: Format, d: Draft, f: Field, pending: set<Field>)
    requires Faithful(format) && Tracked(format, d, pending + {f})
    requires d.editing ==> Tracked(format, d, pending - {f})
    requires !d.editing ==> f !in d.strayed
    ensures var r := NumberChanged(format, d, f);
            && Tracked(format, r, pending - {f}) && r.loading == d.loading && (r.editing ==> d.editing) && (d.loading || r.unsaved)
            && StraysOnly(d, r, {})
    decreases |d.listeners|, if d.editing then 2 else 7
  {
    if d.editing {
      DirtiedKeeps(format, d, pending - {f});
    } else {
      var n := d.entries.At(f).number;
      FreshIsLinked(format, f, n);
      TextSetKeeps(format, d, f, format.show(n), pending + {f});
      var d1 := TextSet(format, d, f, format.show(n));
      assert pending + {f} - {f} == pending - {f};
      assert Tracked(format, d1, pending - {f});
      DirtiedKeeps(format, d1, pending - {f});
    }
  }

  // ----- without listeners -----

  /** An editor after a text was entered, and after a number was assigned. */
  function TextEntered(format: Format, f: Field, e: Entry, text: string): Entry {
    if text == e.text then e
    else Entry(text, if format.read(f, text).Some? then format.read(f, text).value else e.number)
  }

  function NumberAssigned(format: Format, e: Entry, n: int): Entry {
    if n == e.number then e else Fresh(format, n)
  }

  lemma RaisedQuietly(format: Format, d: Draft)
    requires d.listeners == []
    ensures Raised(format, d) == d && Dirtied(format, d) == d.(unsaved := d.unsaved || !d.loading)
  {
    var d1 := d.(unsaved := true);
    assert Raised(format, d1) == d1;
  }

  lemma TextSetQuietly(format: Format, d: Draft, f: Field, text: string)
    requires d.listeners == []
    ensures var e := d.entries.At(f);
            TextSet(format, d, f, text) ==
            if text == e.text then d
            else d.(entries := d.entries.With(f, TextEntered(format, f, e, text)), editing := false,
                    unsaved := d.unsaved || !d.loading, strayed := d.strayed - {f})
  {
    var e := d.entries.At(f);
    if text != e.text {
      var d1 := d.(entries := d.entries.With(f, e.(text := text)), strayed := d.strayed - {f});
      RaisedQuietly(format, d1);
      TextReadQuietly(format, d1.(editing := true), f);
      var d2 := TextRead(format, d1.(editing := true), f).(editing := false);
      RaisedQuietly(format, d2);
      RaisedQuietly(format, Dirtied(format, d2));
      assert TextChanged(format, d1, f) == d2.(unsaved := d.unsaved || !d.loading);
      assert TextSet(format, d, f, text) == TextChanged(format, d1, f);
    }
  }

  lemma TextReadQuietly(format: Format, d: Draft, f: Field)
    requires d.listeners == [] && d.editing
    ensures var e := d.entries.At(f); var n := format.read(f, e.text);
            TextRead(format, d, f) ==
            if n.None? || n.value == e.number then d
            else d.(entries := d.entries.With(f, e.(number := n.value)), unsaved := d.unsaved || !d.loading, strayed := d.strayed - {f})
  {
    var e := d.entries.At(f);
    var n := format.read(f, e.text);
    if n.Some? && n.value != e.number {
      var d1 := d.(entries := d.entries.With(f, e.(number := n.value)), strayed := d.strayed - {f});
      RaisedQuietly(format, d1);
      RaisedQuietly(format, Dirtied(format, d1));
      assert NumberChanged(format, d1, f) == Dirtied(format, d1);
      assert NumberSet(format, d, f, n.value) == Dirtied(format, d1);
    }
  }

  lemma NumberSetQuietly(format: Format, d: Draft, f: Field, n: int)
    requires Faithful(format) && d.listeners == [] && !d.editing
    ensures var e := d.entries.At(f);
            NumberSet(format, d, f, n) ==
            if n == e.number then d
            else d.(entries := d.entries.With(f, NumberAssigned(format, e, n)), unsaved := d.unsaved || !d.loading, strayed := d.strayed - {f})
  {
    var e := d.entries.At(f);
    if n != e.number {
      var d1 := d.(entries := d.entries.With(f, e.(number := n)), strayed := d.strayed - {f});
      FreshReads(format, f, n);
      TextSetQuietly(format, d1, f, format.show(n));
      var d2 := TextSet(format, d1, f, format.show(n));
      assert d2.entries == d.entries.With(f, Fresh(format, n));
      RaisedQuietly(format, d2);
      RaisedQuietly(format, Dirtied(format, d2));
      assert NumberChanged(format, d1, f) == Dirtied(format, d2);
      assert NumberSet(format, d, f, n) == Dirtied(format, d2);
    }
  }

  // ----- a listener that assigns a number -----

  /** Among the numbers assigned while a text is edited, the strays are exactly those that break the link. */
  lemma AssignmentKeepsLinkExactlyWhen(format: Format, f: Field, e: Entry, n: int)
    requires Linked(format, f, e)
    ensures Linked(format, f, e.(number := n)) <==> !Stray(format, f, e, true, n)
  {
  }

  /**
    The interval is edited from 60 to 30, and a listener of the change to unsaved assigns 40: the text says 30
    and the number is 40.
   */
  lemma ListenerBreaksLink(format: Format, d: Draft)
    requires Faithful(format)
    requires d == Draft(Entries(Fresh(format, 60), Fresh(format, 126), Fresh(format, 2)), false, false, false,
                        [None, Some(NumberEdit(Interval, 40))], {})
    ensures Tracked(format, d, {})
    ensures var r := TextSet(format, d, Interval, format.show(30));
            && r.entries.At(Interval) == Entry(format.show(30), 40) && r.strayed == {Interval} && !r.editing
            && !Linked(format, Interval, r.entries.At(Interval))
  {
    FreshReads(format, Interval, 30);
    FreshReads(format, Interval, 60);
    FreshReads(format, Key, 126);
    FreshReads(format, Distance, 2);
    var reaction := NumberEdit(Interval, 40);
    var d1 := d.(entries := d.entries.With(Interval, Entry(format.show(30), 60)));
    assert d.strayed - {Interval} == d.strayed;
    assert TextSet(format, d, Interval, format.show(30)) == TextChanged(format, d1, Interval);
    var d2 := d1.(listeners := [Some(reaction)], editing := true);
    assert d1.listeners[1..] == [Some(reaction)];
    assert Raised(format, d1).(editing := true) == d2;
    ListenerStrays(format, d2);
    var d3 := d2.(entries := d.entries.With(Interval, Entry(format.show(30), 40)), unsaved := true, listeners := [], strayed := {Interval});
    assert TextRead(format, d2, Interval) == d3;
    RaisedQuietly(format, d3.(editing := false));
    assert TextChanged(format, d1, Interval) == d3.(editing := false);
  }

  /** While the text 30 is read, the listener assigns 40. */
  lemma ListenerStrays(format: Format, d: Draft)
    requires Faithful(format) && d.editing && !d.unsaved && !d.loading && d.strayed == {}
    requires d.entries.interval == Entry(format.show(30), 60) && d.listeners == [Some(NumberEdit(Interval, 40))]
    ensures TextRead(format, d, Interval) ==
            d.(entries := d.entries.With(Interval, Entry(format.show(30), 40)), unsaved := true, listeners := [], strayed := {Interval})
  {
    FreshReads(format, Interval, 30);
    var d1 := d.(entries := d.entries.With(Interval, Entry(format.show(30), 30)), strayed := {} - {Interval});
    var d2 := d1.(unsaved := true, listeners := []);
    assert d.listeners[1..] == [];
    var d3 := d2.(entries := d.entries.With(Interval, Entry(format.show(30), 40)), strayed := {Interval});
    RaisedQuietly(format, d3);
    assert Stray(format, Interval, d2.entries.interval, true, 40);
    assert d2.strayed + {Interval} == {Interval};
    assert NumberChanged(format, d3, Interval) == d3;
    assert NumberSet(format, d2, Interval, 40) == d3;
    assert Raised(format, d1.(unsaved := true)) == Raised(format, d3) == d3;
    assert NumberChanged(format, d1, Interval) == Dirtied(format, d1) == d3;
    assert NumberSet(format, d, Interval, 30) == Raised(format, d3);
  }

  // ----- the view model's operations -----

  /** A choice that is no text: it changes or stays. */
  function ChoiceMade(format: Format, d: Draft, changes: bool): Draft {
    if changes then Raised(format, Dirtied(format, d)) else d
  }

  /** HasUnsavedChanges is set to false. */
  function Cleared(format: Format, d: Draft): Draft {
    if d.unsaved then Raised(format, d.(unsaved := false)) else d
  }

  /** One line of `ResetInputText`. */
  function FieldReset(format: Format, d: Draft, f: Field): Draft {
    TextSet(format, d, f, format.show(d.entries.At(f).number))
  }

  function TextsReset(format: Format, d: Draft): Draft {
    FieldReset(format, FieldReset(format, FieldReset(format, d, Interval), Key), Distance)
  }

  /** The assignments of `DiscardChanges`, in its order. */
  function SavedLoaded(format: Format, d: Draft, saved: AppSettings, otherMethod: bool, otherAwake: bool): Draft {
    var d1 := NumberSet(format, ChoiceMade(format, d, otherMethod), Interval, saved.intervalSeconds);
    var d2 := NumberSet(format, ChoiceMade(format, d1, otherAwake), Key, saved.virtualKeyCode);
    NumberSet(format, d2, Distance, saved.mousePixelDelta)
  }

  /** `DiscardChanges`; whether the method and keep-awake differ from the saved ones. */
  function Discarded(format: Format, d: Draft, saved: AppSettings, otherMethod: bool, otherAwake: bool): Draft {
    var reset := TextsReset(format, SavedLoaded(format, d.(loading := true), saved, otherMethod, otherAwake));
    Cleared(format, reset.(loading := false))
  }

  const ALL: set<Field> := {Interval, Key, Distance}

  lemma ChoiceKeeps(format: Format, d: Draft, changes: bool, pending: set<Field>)
    requires Faithful(format) && Tracked(format, d, pending)
    ensures var r := ChoiceMade(format, d, changes);
            && Tracked(format, r, pending) && Recorded(d, r) && StraysOnly(d, r, {}) && (changes ==> d.loading || r.unsaved)
  {
    if changes {
      DirtiedKeeps(format, d, pending);
      RaisedKeeps(format, Dirtied(format, d), pending);
    }
  }

  lemma ClearedKeeps(format: Format, d: Draft)
    requires Faithful(format) && Tracked(format, d, {})
    ensures var r := Cleared(format, d);
            && Tracked(format, r, {}) && r.loading == d.loading && (r.editing ==> d.editing) && StraysOnly(d, r, {})
            && (d.loading || r.unsaved || r.entries == d.entries)
  {
    if d.unsaved {
      RaisedKeeps(format, d.(unsaved := false), {});
    }
  }

  lemma FieldResetKeeps(format: Format, d: Draft, f: Field, pending: set<Field>)
    requires Faithful(format) && Tracked(format, d, pending) && d.loading && !d.editing
    ensures var r := FieldReset(format, d, f);
            && Tracked(format, r, pending - {f}) && r.loading && !r.editing && StraysOnly(d, r, {})
            && (OnlyTexts(d.listeners) ==> f !in r.strayed)
  {
    var n := d.entries.At(f).number;
    FreshIsLinked(format, f, n);
    TextSetKeeps(format, d, f, format.show(n), pending);
    if d.entries.At(f).text != format.show(n) {
      var d1 := d.(entries := d.entries.With(f, Fresh(format, n)), strayed := d.strayed - {f});
      TextChangedKeeps(format, d1, f, pending + {f});
    }
  }

  lemma SavedLoadedKeeps(format: Format, d: Draft, saved: AppSettings, otherMethod: bool, otherAwake: bool)
    requires Faithful(format) && Tracked(format, d, ALL) && d.loading && !d.editing
    ensures var r := SavedLoaded(format, d, saved, otherMethod, otherAwake);
            Tracked(format, r, ALL) && r.loading && !r.editing && StraysOnly(d, r, {})
  {
    ChoiceKeeps(format, d, otherMethod, ALL);
    var d1 := ChoiceMade(format, d, otherMethod);
    NumberSetKeeps(format, d1, Interval, saved.intervalSeconds, ALL);
    var d2 := NumberSet(format, d1, Interval, saved.intervalSeconds);
    ChoiceKeeps(format, d2, otherAwake, ALL);
    var d3 := ChoiceMade(format, d2, otherAwake);
    NumberSetKeeps(format, d3, Key, saved.virtualKeyCode, ALL);
    NumberSetKeeps(format, NumberSet(format, d3, Key, saved.virtualKeyCode), Distance, saved.mousePixelDelta, ALL);
  }

  lemma TextsResetKeeps(format: Format, d: Draft)
    requires Faithful(format) && Tracked(format, d, ALL) && d.loading && !d.editing
    ensures var r := TextsReset(format, d);
            && Tracked(format, r, {}) && r.loading && !r.editing
            && (OnlyTexts(d.listeners) ==> OnlyTexts(r.listeners) && r.strayed == {})
  {
    FieldResetKeeps(format, d, Interval, ALL);
    var d1 := FieldReset(format, d, Interval);
    FieldResetKeeps(format, d1, Key, ALL - {Interval});
    var d2 := FieldReset(format, d1, Key);
    FieldResetKeeps(format, d2, Distance, ALL - {Interval} - {Key});
    assert ALL - {Interval} - {Key} - {Distance} == {};
    var r := FieldReset(format, d2, Distance);
    if OnlyTexts(d.listeners) {
      assert forall f: Field :: f in r.strayed ==> f == Interval || f == Key || f == Distance;
    }
  }

  /**
    A discard settles all fields, whatever they were before; if the listeners only edit texts in reaction to
    it, every text that reads as a number is then linked to it.
   */
  lemma DiscardedKeeps(format: Format, d: Draft, saved: AppSettings, otherMethod: bool, otherAwake: bool)
    requires Faithful(format) && Tracked(format, d, ALL) && !d.editing
    ensures var r := Discarded(format, d, saved, otherMethod, otherAwake);
            && Tracked(format, r, {}) && !r.loading && !r.editing
            && (OnlyTexts(d.listeners) ==> r.strayed == {})
  {
    var d1 := d.(loading := true);
    SavedLoadedKeeps(format, d1, saved, otherMethod, otherAwake);
    var d2 := SavedLoaded(format, d1, saved, otherMethod, otherAwake);
    TextsResetKeeps(format, d2);
    ClearedKeeps(format, TextsReset(format, d2).(loading := false));
  }

  /** The numbers a settings record holds, as their editors show them. */
  function Shown(format: Format, s: AppSettings): Entries {
    Entries(Fresh(format, s.intervalSeconds), Fresh(format, s.virtualKeyCode), Fresh(format, s.mousePixelDelta))
  }

  /** What a discard shows reads back as the saved numbers. */
  lemma ShownReadsBack(format: Format, s: AppSettings)
    requires Faithful(format) && Validates(s)
    ensures InputError(format, Shown(format, s)).None?
    ensures forall f: Field :: format.read(f, Shown(format, s).At(f).text) == Some(Stored(s, f))
  {
    forall f: Field ensures format.read(f, Shown(format, s).At(f).text) == Some(Stored(s, f)) {
      FreshReads(format, f, Stored(s, f));
      assert Shown(format, s).At(f) == Fresh(format, Stored(s, f));
    }
    assert Shown(format, s).At(Interval) == Shown(format, s).interval;
    assert Shown(format, s).At(Key) == Shown(format, s).key;
    assert Shown(format, s).At(Distance) == Shown(format, s).distance;
  }

  /** Without listeners a discard shows exactly what is saved. */
  lemma DiscardedQuietly(format: Format, d: Draft, saved: AppSettings, otherMethod: bool, otherAwake: bool)
    requires Faithful(format) && d.listeners == [] && !d.editing
    ensures var r := Discarded(format, d, saved, otherMethod, otherAwake);
            r.entries == Shown(format, saved) && !r.unsaved && r.listeners == []
  {
    var d0 := d.(loading := true);
    var d1 := ChoiceMade(format, d0, otherMethod);
    NumberSetQuietly(format, d1, Interval, saved.intervalSeconds);
    var d2 := ChoiceMade(format, NumberSet(format, d1, Interval, saved.intervalSeconds), otherAwake);
    NumberSetQuietly(format, d2, Key, saved.virtualKeyCode);
    var d3 := NumberSet(format, d2, Key, saved.virtualKeyCode);
    NumberSetQuietly(format, d3, Distance, saved.mousePixelDelta);
    var d4 := NumberSet(format, d3, Distance, saved.mousePixelDelta);
    assert d4.entries.interval.number == saved.intervalSeconds && d4.entries.key.number == saved.virtualKeyCode
           && d4.entries.distance.number == saved.mousePixelDelta;
    TextsResetQuietly(format, d4);
  }

  lemma TextsResetQuietly(format: Format, d: Draft)
    requires Faithful(format) && d.listeners == [] && d.loading && !d.editing
    ensures var r := TextsReset(format, d);
            r.listeners == [] && r.unsaved == d.unsaved && r.loading
            && r.entries == Entries(Fresh(format, d.entries.interval.number), Fresh(format, d.entries.key.number),
                                    Fresh(format, d.entries.distance.number))
  {
    FieldResetQuietly(format, d, Interval);
    var d1 := FieldReset(format, d, Interval);
    FieldResetQuietly(format, d1, Key);
    FieldResetQuietly(format, FieldReset(format, d1, Key), Distance);
  }

  lemma FieldResetQuietly(format: Format, d: Draft, f: Field)
    requires Faithful(format) && d.listeners == [] && d.loading && !d.editing
    ensures var r := FieldReset(format, d, f);
            && r.listeners == [] && r.unsaved == d.unsaved && r.loading && !r.editing
            && r.entries == d.entries.With(f, Fresh(format, d.entries.At(f).number))
  {
    var n := d.entries.At(f).number;
    TextSetQuietly(format, d, f, format.show(n));
    FreshIsLinked(format, f, n);
  }

  // ----- the draft -----

  /** The draft and its setters (DashboardViewModel.Input.cs and the observable properties). */
  class InputDraft {
    const format: NumberFormat
    var entries: Entries
    var selectedMethod: KeepAliveMethod
    var keepAwakeEnabled: bool
    var editing: bool
    var loading: bool
    var hasUnsavedChanges: bool
    var listeners: seq<Option<Edit>>
    ghost var strayed: set<Field>

    constructor (format: NumberFormat)
      ensures this.format == format && State() == Draft(INITIAL, false, false, false, [], {})
    {
      this.format := format;
      entries := INITIAL;
      selectedMethod, keepAwakeEnabled := Keyboard, false;
      editing, loading, hasUnsavedChanges := false, false, false;
      listeners := [];
      strayed := {};
    }

    ghost function State(): Draft
      reads this
    {
      Draft(entries, editing, loading, hasUnsavedChanges, listeners, strayed)
    }

    /** Raises PropertyChanged. */
    method Raise()
      modifies this`entries, this`editing, this`hasUnsavedChanges, this`listeners, this`strayed
      ensures State() == Raised(format, old(State()))
      decreases |listeners|, 0
    {
      while listeners != []
        invariant Raised(format, State()) == Raised(format, old(State())) && |listeners| <= |old(listeners)|
        decreases |listeners|
      {
        var next := listeners[0];
        listeners := listeners[1..];
        if next.None? { return; }
        match next.value {
          case TextEdit(f, text) => SetText(f, text);
          case NumberEdit(f, n) => SetNumber(f, n);
        }
      }
    }

    /** `MarkDirty`. */
    method MarkDirty()
      modifies this`entries, this`editing, this`hasUnsavedChanges, this`listeners, this`strayed
      ensures State() == Dirtied(format, old(State()))
      decreases |listeners|, 1
    {
      if !loading && !hasUnsavedChanges {
        hasUnsavedChanges := true;
        Raise();
      }
    }

    /** The setters of IntervalSecondsText, VirtualKeyCodeText and MousePixelDeltaText. */
    method SetText(f: Field, text: string)
      modifies this`entries, this`editing, this`hasUnsavedChanges, this`listeners, this`strayed
      ensures State() == TextSet(format, old(State()), f, text)
      decreases |listeners|, 6
    {
      if entries.At(f).text == text { return; }
      entries := entries.With(f, entries.At(f).(text := text));
      strayed := strayed - {f};
      OnTextChanged(f);
    }

    /** The rest of a text setter. */
    method OnTextChanged(f: Field)
      modifies this`entries, this`editing, this`hasUnsavedChanges, this`listeners, this`strayed
      ensures State() == TextChanged(format, old(State()), f)
      decreases |listeners|, 5
    {
      Raise();
      editing := true;
      var n := format.read(f, entries.At(f).text);
      if n.Some? {
        SetNumber(f, n.value);
      }
      editing := false;
      MarkDirty();
      Raise();   // InputError
    }

    /** The setters of IntervalSeconds, VirtualKeyCode and MousePixelDelta. */
    method SetNumber(f: Field, n: int)
      modifies this`entries, this`editing, this`hasUnsavedChanges, this`listeners, this`strayed
      ensures State() == NumberSet(format, old(State()), f, n)
      decreases |listeners|, if editing then 3 else 8
    {
      if entries.At(f).number == n { return; }
      strayed := if Stray(format, f, entries.At(f), editing, n) then strayed + {f} else strayed - {f};
      entries := entries.With(f, entries.At(f).(number := n));
      OnNumberChanged(f);
      Raise();
    }

    /** The change handlers of the three numbers. */
    method OnNumberChanged(f: Field)
      modifies this`entries, this`editing, this`hasUnsavedChanges, this`listeners, this`strayed
      ensures State() == NumberChanged(format, old(State()), f)
      decreases |listeners|, if editing then 2 else 7
    {
      if !editing {
        SetText(f, format.show(entries.At(f).number));
      }
      MarkDirty();
    }

    method SetMethod(m: KeepAliveMethod)
      modifies this`entries, this`editing, this`hasUnsavedChanges, this`listeners, this`strayed, this`selectedMethod
      ensures selectedMethod == m && State() == ChoiceMade(format, old(State()), m != old(selectedMethod))
    {
      if selectedMethod == m { return; }
      selectedMethod := m;
      MarkDirty();
      Raise();
    }

    method SetKeepAwakeEnabled(enabled: bool)
      modifies this`entries, this`editing, this`hasUnsavedChanges, this`listeners, this`strayed, this`keepAwakeEnabled
      ensures keepAwakeEnabled == enabled && State() == ChoiceMade(format, old(State()), enabled != old(keepAwakeEnabled))
    {
      if keepAwakeEnabled == enabled { return; }
      keepAwakeEnabled := enabled;
      MarkDirty();
      Raise();
    }

    /** HasUnsavedChanges is set to false. */
    method ClearUnsaved()
      modifies this`entries, this`editing, this`hasUnsavedChanges, this`listeners, this`strayed
      ensures State() == Cleared(format, old(State()))
    {
      if hasUnsavedChanges {
        hasUnsavedChanges := false;
        Raise();
      }
    }

    /** `ResetInputText`. */
    method ResetInputText()
      modifies this`entries, this`editing, this`hasUnsavedChanges, this`listeners, this`strayed
      ensures State() == TextsReset(format, old(State()))
    {
      SetText(Interval, format.show(entries.interval.number));
      SetText(Key, format.show(entries.key.number));
      SetText(Distance, format.show(entries.distance.number));
    }

    /** The assignments of `DiscardChanges`. */
    method LoadSaved(saved: AppSettings)
      modifies this`entries, this`editing, this`hasUnsavedChanges, this`listeners, this`strayed, this`selectedMethod, this`keepAwakeEnabled
      ensures selectedMethod == Defined(saved.keepAliveMethod) && keepAwakeEnabled == saved.keepAwakeEnabled
      ensures State() == SavedLoaded(format, old(State()), saved, Defined(saved.keepAliveMethod) != old(selectedMethod),
                                     saved.keepAwakeEnabled != old(keepAwakeEnabled))
    {
      SetMethod(Defined(saved.keepAliveMethod));
      SetNumber(Interval, saved.intervalSeconds);
      SetKeepAwakeEnabled(saved.keepAwakeEnabled);
      SetNumber(Key, saved.virtualKeyCode);
      SetNumber(Distance, saved.mousePixelDelta);
    }
  }

  // ----- saving and discarding -----

  /** `Enum.TryParse`, with the keyboard as fallback. */
  function Defined(stored: KeepAliveMethod): KeepAliveMethod {
    if stored.UnknownMethod? then Keyboard else stored
  }

  /** The number a settings record holds for a field. */
  function Stored(s: AppSettings, f: Field): int {
    match f case Interval => s.intervalSeconds case Key => s.virtualKeyCode case Distance => s.mousePixelDelta
  }

  function WithOptions(s: AppSettings, o: KeepAliveOptions): AppSettings {
    s.(keepAliveMethod := o.keepAliveMethod, intervalSeconds := o.intervalSeconds, keepAwakeEnabled := o.keepAwakeEnabled,
       virtualKeyCode := o.virtualKeyCode, mousePixelDelta := o.mousePixelDelta)
  }

  /** Settings with other options are the former ones in everything else. */
  lemma OptionsKeepTheRest(s: AppSettings, o: KeepAliveOptions)
    ensures var t := WithOptions(s, o);
            && KeepAliveOptions(t.keepAliveMethod, t.intervalSeconds, t.keepAwakeEnabled, t.virtualKeyCode, t.mousePixelDelta) == o
            && t.storageMode == s.storageMode && t.theme == s.theme && t.startOnBoot == s.startOnBoot
            && t.showNotifications == s.showNotifications && t.startMinimizedToTray == s.startMinimizedToTray
            && t.enableAutomaticUpdateChecks == s.enableAutomaticUpdateChecks
            && t.enableStartupAccountSync == s.enableStartupAccountSync
            && t.scheduledActionEnabled == s.scheduledActionEnabled && t.scheduledActionType == s.scheduledActionType
            && t.scheduledActionTime == s.scheduledActionTime
  {
  }

  /** The settings store and the engine accept the same options. */
  lemma StoredOptionsValidate(s: AppSettings)
    ensures Validates(s) <==>
              && ValidOptions(KeepAliveOptions(s.keepAliveMethod, s.intervalSeconds, s.keepAwakeEnabled, s.virtualKeyCode, s.mousePixelDelta))
              && !s.theme.UnknownTheme? && !s.scheduledActionType.Undefined?
  {
  }

  /** `InputError`: the first field that needs a correction. */
  function InputError(format: Format, entries: Entries): Option<Field> {
    if format.read(Interval, entries.interval.text).None? then Some(Interval)
    else if format.read(Key, entries.key.text).None? then Some(Key)
    else if format.read(Distance, entries.distance.text).None? then Some(Distance)
    else None
  }

  /** The field that is reported is the first of the three whose text is no number in range. */
  lemma FirstErrorIsReported(format: Format, entries: Entries)
    requires Faithful(format)
    ensures InputError(format, entries) == Some(Interval) <==> format.read(Interval, entries.At(Interval).text).None?
    ensures InputError(format, entries) == Some(Key) <==>
              format.read(Interval, entries.At(Interval).text).Some? && format.read(Key, entries.At(Key).text).None?
    ensures InputError(format, entries) == Some(Distance) <==>
              format.read(Interval, entries.At(Interval).text).Some? && format.read(Key, entries.At(Key).text).Some?
              && format.read(Distance, entries.At(Distance).text).None?
  {
  }

  function CreateOptions(m: KeepAliveMethod, keepAwake: bool, entries: Entries): KeepAliveOptions {
    KeepAliveOptions(m, entries.interval.number, keepAwake, entries.key.number, entries.distance.number)
  }

  /** Without an input error every text is a number in range, the one that is saved and given to the engine. */
  lemma NoErrorMeansValidOptions(format: Format, entries: Entries, m: KeepAliveMethod, keepAwake: bool)
    requires Faithful(format) && AllLinked(format, entries)
    ensures InputError(format, entries).None? <==> forall f: Field :: format.read(f, entries.At(f).text) == Some(entries.At(f).number)
    ensures InputError(format, entries).None? ==> (ValidOptions(CreateOptions(m, keepAwake, entries)) <==> !m.UnknownMethod?)
  {
    assert Linked(format, Interval, entries.At(Interval));
    assert Linked(format, Key, entries.At(Key));
    assert Linked(format, Distance, entries.At(Distance));
  }

  /** Saves validated options on top of the current settings. */
  method SaveOptions(settings: SettingsService, options: KeepAliveOptions) returns (ok: bool)
    requires settings.Consistent() && settings.FlagIsTrue() && ValidOptions(options)
    modifies settings, settings.secrets.disk
    ensures settings.Consistent() && settings.FlagIsTrue()
    ensures settings.secrets.disk.faults >= old(settings.secrets.disk.faults)
    ensures ok <==> settings.secrets.disk.faults == old(settings.secrets.disk.faults)
    ensures settings.current == if ok then WithOptions(old(settings.current), options) else old(settings.current)
  {
    var outcome, id := settings.Save(WithOptions(settings.current, options));
    ok := outcome == Saved;
  }

  class DashboardViewModel {
    const settings: SettingsService
    const draft: InputDraft

    constructor (settings: SettingsService, format: NumberFormat)
      ensures this.settings == settings && draft.format == format && fresh(draft)
      ensures AtRest() && draft.strayed == {} && ShowsSaved() && !draft.hasUnsavedChanges
    {
      this.settings := settings;
      this.draft := new InputDraft(format);
      new;
      assert Tracked(format, draft.State(), ALL);
      DiscardChanges();
    }

    /** Between operations: exactly in the strayed fields a text reads as another number. */
    ghost predicate AtRest()
      reads draft
    {
      Tracked(draft.format, draft.State(), {}) && !draft.editing && !draft.loading
    }

    /** The choices are the saved ones, and so are the numbers. */
    ghost predicate HoldsSaved()
      reads draft, settings
    {
      && draft.selectedMethod == Defined(settings.current.keepAliveMethod)
      && draft.keepAwakeEnabled == settings.current.keepAwakeEnabled
      && forall f: Field :: draft.entries.At(f).number == Stored(settings.current, f)
    }

    /** As HoldsSaved, and every text is its number as printed. */
    ghost predicate ShowsSaved()
      reads draft, settings
    {
      HoldsSaved() && draft.entries == Shown(draft.format, settings.current)
    }

    /** `DiscardChanges`, from any draft, linked or not. */
    method DiscardChanges()
      requires !draft.editing && Tracked(draft.format, draft.State(), ALL)
      modifies draft
      ensures AtRest()
      ensures OnlyTexts(old(draft.listeners)) ==> draft.strayed == {}
      ensures old(draft.listeners) == [] ==> ShowsSaved() && !draft.hasUnsavedChanges
    {
      ghost var d, otherMethod := draft.State(), Defined(settings.current.keepAliveMethod) != draft.selectedMethod;
      ghost var otherAwake := settings.current.keepAwakeEnabled != draft.keepAwakeEnabled;
      draft.loading := true;
      draft.LoadSaved(settings.current);
      draft.ResetInputText();
      draft.loading := false;
      draft.ClearUnsaved();
      assert draft.State() == Discarded(draft.format, d, settings.current, otherMethod, otherAwake);
      DiscardedKeeps(draft.format, d, settings.current, otherMethod, otherAwake);
      if d.listeners == [] {
        DiscardedQuietly(draft.format, d, settings.current, otherMethod, otherAwake);
      }
    }

    /** `ApplySettings`. */
    method ApplySettings() returns (ok: bool)
      requires AtRest() && settings.Consistent() && settings.FlagIsTrue()
      modifies draft, settings, settings.secrets.disk
      ensures AtRest() && settings.Consistent() && settings.FlagIsTrue()
      ensures ok <==> && old(InputError(draft.format, draft.entries)).None? && ValidOptions(old(Options()))
                      && settings.secrets.disk.faults == old(settings.secrets.disk.faults)
      ensures settings.current == if ok then WithOptions(old(settings.current), old(Options())) else old(settings.current)
      ensures StraysOnly(old(draft.State()), draft.State(), {})
      ensures ok ==> draft.hasUnsavedChanges || HoldsSaved()
      ensures !ok && old(draft.hasUnsavedChanges || HoldsSaved()) ==> draft.hasUnsavedChanges || HoldsSaved()
      ensures old(draft.listeners) == [] ==>
                draft.entries == old(draft.entries) && draft.hasUnsavedChanges == (old(draft.hasUnsavedChanges) && !ok)
    {
      ok := false;
      if InputError(draft.format, draft.entries).None? {
        if ValidOptions(Options()) {
          ok := SaveOptions(settings, Options());
        }
        Announce(ok);
      }
    }

    /** The property changes at the end of `ApplySettings`: HasUnsavedChanges, when saved, and ErrorMessage. */
    method Announce(saved: bool)
      requires AtRest()
      modifies draft`entries, draft`editing, draft`hasUnsavedChanges, draft`listeners, draft`strayed
      ensures AtRest() && StraysOnly(old(draft.State()), draft.State(), {})
      ensures draft.hasUnsavedChanges || (draft.entries == old(draft.entries) && (saved || !old(draft.hasUnsavedChanges)))
      ensures old(draft.listeners) == [] ==>
                draft.entries == old(draft.entries) && draft.hasUnsavedChanges == (old(draft.hasUnsavedChanges) && !saved)
    {
      ghost var d := draft.State();
      if saved {
        ClearedKeeps(draft.format, d);
        draft.ClearUnsaved();
      }
      RaisedKeeps(draft.format, draft.State(), {});
      draft.Raise();
    }

    function Options(): KeepAliveOptions
      reads draft
    {
      CreateOptions(draft.selectedMethod, draft.keepAwakeEnabled, draft.entries)
    }
  }

  datatype Operation =
    | EnterText(field: Field, text: string)
    | AssignNumber(field: Field, number: int)
    | SelectMethod(m: KeepAliveMethod)
    | SelectKeepAwake(enabled: bool)
    | Apply
    | Discard

  /** An operation, and what the listeners do in reaction to the changes it makes. */
  datatype Act = Act(operation: Operation, reactions: seq<Option<Edit>>)

  method Perform(vm: DashboardViewModel, act: Act)
    requires vm.AtRest() && vm.settings.Consistent() && vm.settings.FlagIsTrue()
    modifies vm.draft, vm.settings, vm.settings.secrets.disk
    ensures vm.AtRest() && vm.settings.Consistent() && vm.settings.FlagIsTrue()
    ensures OnlyTexts(act.reactions) && (act.operation == Discard || old(vm.draft.strayed) == {}) ==> vm.draft.strayed == {}
    ensures act.operation != Discard || act.reactions == [] ==>
              (old(vm.draft.hasUnsavedChanges || vm.HoldsSaved()) ==> vm.draft.hasUnsavedChanges || vm.HoldsSaved())
    ensures act == Act(Discard, []) ==> vm.ShowsSaved() && !vm.draft.hasUnsavedChanges
  {
    vm.draft.listeners := act.reactions;
    match act.operation
    case Apply => var ok := vm.ApplySettings();
    case Discard => vm.DiscardChanges();
    case _ => EditDraft(vm, act.operation);
  }

  /** The operations that neither save nor discard. */
  method EditDraft(vm: DashboardViewModel, operation: Operation)
    requires vm.AtRest() && !operation.Apply? && !operation.Discard?
    modifies vm.draft
    ensures vm.AtRest() && StraysOnly(old(vm.draft.State()), vm.draft.State(), {})
    ensures old(vm.draft.hasUnsavedChanges || vm.HoldsSaved()) ==> vm.draft.hasUnsavedChanges || vm.HoldsSaved()
  {
    ghost var format, d := vm.draft.format, vm.draft.State();
    match operation
    case EnterText(f, text) =>
      TextSetKeeps(format, d, f, text, {});
      vm.draft.SetText(f, text);
    case AssignNumber(f, n) =>
      NumberSetKeeps(format, d, f, n, {});
      vm.draft.SetNumber(f, n);
    case SelectMethod(m) =>
      ChoiceKeeps(format, d, m != vm.draft.selectedMethod, {});
      vm.draft.SetMethod(m);
    case SelectKeepAwake(enabled) =>
      ChoiceKeeps(format, d, enabled != vm.draft.keepAwakeEnabled, {});
      vm.draft.SetKeepAwakeEnabled(enabled);
  }

  /** From the k-th act on, which is the first or follows a discard, listeners only edited texts, in that discard too. */
  predicate OnlyTextsSince(acts: seq<Act>, k: nat, n: nat)
    requires n <= |acts|
  {
    && k <= n && (k == 0 || (acts[k - 1].operation == Discard && OnlyTexts(acts[k - 1].reactions)))
    && forall i :: k <= i < n ==> OnlyTexts(acts[i].reactions)
  }

  ghost predicate LinkedSince(acts: seq<Act>, n: nat)
    requires n <= |acts|
  {
    exists k: nat :: OnlyTextsSince(acts, k, n)
  }

  lemma LinkedSinceStep(acts: seq<Act>, n: nat)
    requires n < |acts|
    ensures LinkedSince(acts, n + 1) ==> OnlyTexts(acts[n].reactions) && (acts[n].operation == Discard || LinkedSince(acts, n))
  {
    if LinkedSince(acts, n + 1) {
      var k: nat :| OnlyTextsSince(acts, k, n + 1);
      assert k <= n ==> OnlyTextsSince(acts, k, n);
    }
  }

  /**
    After any sequence of edits, assignments, saves and discards, with any text edits made in reaction to
    their changes: a text that reads as a number is linked to it, and without an input error the options
    validate. With listeners that assign numbers as well, this holds exactly while no field has strayed, and
    again from any discard in which they only edit texts. A draft that is not marked as unsaved holds what
    is saved, if no listener reacted while a discard was loading.
   */
  method AnyRun(settings: SettingsService, format: NumberFormat, acts: seq<Act>) returns (vm: DashboardViewModel)
    requires settings.Consistent() && settings.FlagIsTrue()
    modifies settings, settings.secrets.disk
    ensures vm.settings == settings && vm.draft.format == format && vm.AtRest()
    ensures LinkedSince(acts, |acts|) ==> AllLinked(format, vm.draft.entries)
    ensures AllLinked(format, vm.draft.entries) <==> vm.draft.strayed == {}
    ensures AllLinked(format, vm.draft.entries) && InputError(format, vm.draft.entries).None? && !vm.draft.selectedMethod.UnknownMethod? ==>
              ValidOptions(vm.Options())
    ensures (forall i :: 0 <= i < |acts| && acts[i].operation == Discard ==> acts[i].reactions == []) ==>
              vm.draft.hasUnsavedChanges || vm.HoldsSaved()
  {
    vm := new DashboardViewModel(settings, format);
    for i := 0 to |acts|
      invariant vm.settings == settings && vm.draft.format == format && fresh(vm.draft)
      invariant vm.AtRest() && settings.Consistent() && settings.FlagIsTrue()
      invariant LinkedSince(acts, i) ==> vm.draft.strayed == {}
      invariant (forall j :: 0 <= j < i && acts[j].operation == Discard ==> acts[j].reactions == []) ==>
                  vm.draft.hasUnsavedChanges || vm.HoldsSaved()
    {
      LinkedSinceStep(acts, i);
      Perform(vm, acts[i]);
    }
    LinkedExactlyWhen(format, vm.draft.State());
    LinkedOptionsAreValid(format, vm.draft.entries, vm.draft.selectedMethod, vm.draft.keepAwakeEnabled);
  }

  lemma LinkedOptionsAreValid(format: Format, entries: Entries, m: KeepAliveMethod, keepAwake: bool)
    requires Faithful(format)
    ensures AllLinked(format, entries) && InputError(format, entries).None? && !m.UnknownMethod? ==>
              ValidOptions(CreateOptions(m, keepAwake, entries))
  {
    if AllLinked(format, entries) {
      NoErrorMeansValidOptions(format, entries, m, keepAwake);
    }
  }

  lemma LinkedExactlyWhen(format: Format, d: Draft)
    requires Tracked(format, d, {})
    ensures AllLinked(format, d.entries) <==> d.strayed == {}
  {
    if AllLinked(format, d.entries) {
      assert forall f: Field :: Linked(format, f, d.entries.At(f));
      assert forall f: Field :: f !in d.strayed;
    }
  }
}
