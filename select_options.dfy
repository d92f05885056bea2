/** How the popup (popup/popup.js) fills a select field: its static
    `options` followed by the options its `optionsDynamic` setting
    generates, without repeats. The only generator is the month list: a
    number of months counted from the current one, each written out by
    `Intl.DateTimeFormat`. The clock is the `now` parameter and the
    formatter the `fmt` parameter. */
module SelectOptions {
  import opened Text
  import opened Wrappers
  import opened JsValue

  /** A calendar month: `month` is 0 for January through 11 for December, as
      `Date.prototype.getMonth` counts. */
  datatype YearMonth = YearMonth(year: int, month: int)

  predicate IsMonth(ym: YearMonth) {
    0 <= ym.month < 12
  }

  /** The month of `new Date(y, m, 1)`: a year from 0 to 99 means 1900 to
      1999, and a month outside 0..11 carries into the year (MakeDay, section
      21.4.1 of ECMA-262). Dafny's `/` and `%` by 12 round down, as the
      carry needs. */
  function MakeMonth(y: int, m: int): (r: YearMonth)
    ensures IsMonth(r)
  {
    var yr := if 0 <= y <= 99 then 1900 + y else y;
    YearMonth(yr + m / 12, m % 12)
  }

  /** Months counted from year zero: the carry keeps this count. */
  function MonthNumber(ym: YearMonth): int {
    ym.year * 12 + ym.month
  }

  lemma MakeMonthCount(y: int, m: int)
    requires !(0 <= y <= 99)
    ensures MonthNumber(MakeMonth(y, m)) == y * 12 + m
  {
  }

  datatype MonthStyle = Long | Short

  /** The options handed to `Intl.DateTimeFormat`: the month's style and
      whether the year is shown. */
  datatype DateStyle = DateStyle(month: MonthStyle, withYear: bool)

  /** The `switch` of `formatMonth`. */
  function StyleFor(format: Value): DateStyle
  {
    if format == Str("month") then DateStyle(Long, false)
    else if format == Str("shortMonth") then DateStyle(Short, false)
    else if format == Str("shortMonthYear") then DateStyle(Short, true)
    else DateStyle(Long, true)
  }

  /** A short month exactly for the two "short" formats; no year exactly for
      the two year-less formats; long with year for anything else. */
  lemma StyleForSpec(format: Value)
    ensures StyleFor(format).month == Short <==> format in {Str("shortMonth"), Str("shortMonthYear")}
    ensures !StyleFor(format).withYear <==> format in {Str("month"), Str("shortMonth")}
  {
  }

  /** `normalizeLocale`: the formatter falls back to its default locale
      exactly when no locale is given, never receives the bare "pl", and
      receives any other locale unchanged. */
  function NormalizeLocale(locale: Value): (r: Value)
    ensures Truthy(r) <==> Truthy(locale)
    ensures !Truthy(r) ==> r == Undefined
    ensures r != Str("pl")
    ensures locale == Str("pl") ==> r == Str("pl-PL")
    ensures r != locale ==> locale == Str("pl") || !Truthy(locale)
  {
    if !Truthy(locale) then Undefined
    else if locale == Str("pl") then Str("pl-PL")
    else locale
  }

  lemma NormalizeLocaleIdempotent(locale: Value)
    ensures NormalizeLocale(NormalizeLocale(locale)) == NormalizeLocale(locale)
  {
  }

  /** `Intl.DateTimeFormat(locale, style).format(date)`, left uninterpreted. */
  type Formatter = (YearMonth, DateStyle, Value) -> string

  /** The settings `buildMonthOptions` receives. Counts are whole numbers;
      fractional settings are not modelled. */
  datatype MonthConfig = MonthConfig(count: int, startOffset: int, step: int, format: Value, locale: Value)

  /** The `"months"` preset: this month and the one before. */
  const Preset := MonthConfig(2, 0, -1, Str("monthYear"), Undefined)

  /** `Number.isFinite(v) ? v : fallback`. */
  function FiniteOr(v: Value, fallback: int): int {
    if IsFinite(v) then v.n else fallback
  }

  /** The month settings an `optionsDynamic` value asks for, if any. */
  function ConfigOf(d: Value): Option<MonthConfig>
  {
    if d == Str("months") then Some(Preset)
    else if Truthy(d) && Get(d, "type") == Str("months") then
      Some(MonthConfig(FiniteOr(Get(d, "count"), 2), FiniteOr(Get(d, "startOffset"), 0),
                       FiniteOr(Get(d, "step"), -1),
                       if Truthy(Get(d, "format")) then Get(d, "format") else Str("monthYear"),
                       NormalizeLocale(Get(d, "locale"))))
    else None
  }

  /** The month of entry `i`: `now` moved by `startOffset + step * i`. */
  function EntryMonth(now: YearMonth, c: MonthConfig, i: int): YearMonth
  {
    MakeMonth(now.year, now.month + c.startOffset + c.step * i)
  }

  /** What `buildMonthOptions` returns. */
  function MonthOptions(now: YearMonth, c: MonthConfig, fmt: Formatter): (r: seq<string>)
    ensures |r| == if c.count > 0 then c.count else 0
  {
    var n := if c.count > 0 then c.count else 0;
    seq(n, i requires 0 <= i < n => fmt(EntryMonth(now, c, i), StyleFor(c.format), c.locale))
  }

  /** `buildMonthOptions(config)`, given the current month. */
  method BuildMonthOptions(now: YearMonth, c: MonthConfig, fmt: Formatter) returns (options: seq<string>)
    ensures options == MonthOptions(now, c, fmt)
  {
    options := [];
    var i := 0;
    while i < c.count
      invariant 0 <= i <= (if c.count > 0 then c.count else 0)
      invariant |options| == i
      invariant forall k :: 0 <= k < i ==> options[k] == fmt(EntryMonth(now, c, k), StyleFor(c.format), c.locale)
    {
      options := options + [fmt(MakeMonth(now.year, now.month + c.startOffset + c.step * i), StyleFor(c.format), c.locale)];
      i := i + 1;
    }
  }

  /** Entry `i` is written for the month `startOffset + step * i` months
      away from the current one, with the year carried or borrowed. */
  lemma MonthOptionsEntries(now: YearMonth, c: MonthConfig, fmt: Formatter, i: nat)
    requires now.year >= 100 && IsMonth(now) && i < c.count
    ensures IsMonth(EntryMonth(now, c, i))
    ensures MonthNumber(EntryMonth(now, c, i)) == MonthNumber(now) + c.startOffset + c.step * i
    ensures MonthOptions(now, c, fmt)[i] == fmt(EntryMonth(now, c, i), StyleFor(c.format), c.locale)
  {
  }

  /** The month before `now`. */
  function PreviousMonth(now: YearMonth): YearMonth {
    if now.month == 0 then YearMonth(now.year - 1, 11) else YearMonth(now.year, now.month - 1)
  }

  /** The preset lists the current month and then the previous one, which
      lies in the year before when the current month is January. */
  lemma PresetMonths(now: YearMonth, fmt: Formatter)
    requires now.year >= 100 && IsMonth(now)
    ensures MonthOptions(now, Preset, fmt) ==
              [fmt(now, DateStyle(Long, true), Undefined), fmt(PreviousMonth(now), DateStyle(Long, true), Undefined)]
  {
    assert EntryMonth(now, Preset, 0) == now;
    assert EntryMonth(now, Preset, 1) == PreviousMonth(now);
    assert Str("monthYear") != Str("month") by {
      assert |"monthYear"| != |"month"|;
    }
    assert StyleFor(Preset.format) == DateStyle(Long, true) by {
      assert "monthYear"[5] != "shortMonth"[5];
      assert |"monthYear"| != |"shortMonthYear"|;
    }
  }

  /** `buildDynamicOptions(optionsDynamic)`. */
  function DynamicOptions(d: Value, now: YearMonth, fmt: Formatter): seq<string>
  {
    match ConfigOf(d)
    case Some(c) => MonthOptions(now, c, fmt)
    case None => []
  }

  /** The static options of a field: `options` when it is an array. */
  function StaticOptions(field: Value): seq<Value>
  {
    var o := Get(field, "options");
    if o.Arr? then o.items else []
  }

  /** The dynamic options of a field, when it has a truthy `optionsDynamic`. */
  function FieldDynamicOptions(field: Value, now: YearMonth, fmt: Formatter): seq<Value>
  {
    var d := Get(field, "optionsDynamic");
    if Truthy(d) then
      var names := DynamicOptions(d, now, fmt);
      seq(|names|, i requires 0 <= i < |names| => Str(names[i]))
    else []
  }

  /** `resolveSelectOptions(field)`: `[...new Set([...static, ...dynamic])]`. */
  function ResolveSelectOptions(field: Value, now: YearMonth, fmt: Formatter): seq<Value>
  {
    SetOf(StaticOptions(field) + FieldDynamicOptions(field, now, fmt))
  }

  /** The resolved list has no repeats, holds exactly the static and the
      dynamic options, and begins with the static options' own distinct
      list. Its entries are those of the static options followed by the
      dynamic ones, taken at increasing positions: a position contributes
      exactly when it is the first occurrence of its option. */
  lemma ResolveSelectOptionsSpec(field: Value, now: YearMonth, fmt: Formatter)
    ensures var all := StaticOptions(field) + FieldDynamicOptions(field, now, fmt);
            var r := ResolveSelectOptions(field, now, fmt);
            var pos := Positions(all);
            SetDistinct(r) &&
            (forall v :: v in r <==> v in StaticOptions(field) || v in FieldDynamicOptions(field, now, fmt)) &&
            |SetOf(StaticOptions(field))| <= |r| &&
            r[..|SetOf(StaticOptions(field))|] == SetOf(StaticOptions(field)) &&
            |pos| == |r| &&
            (forall k :: 0 <= k < |r| ==> pos[k] < |all| && r[k] == all[pos[k]]) &&
            (forall k, l :: 0 <= k < l < |r| ==> pos[k] < pos[l]) &&
            (forall p :: 0 <= p < |all| ==> (p in pos <==> FirstOccurrence(all, p)))
  {
    var all := StaticOptions(field) + FieldDynamicOptions(field, now, fmt);
    SetOfSpec(all);
    SetOfOrder(all);
    SetOfPrefix(StaticOptions(field), FieldDynamicOptions(field, now, fmt));
  }

  /** `buildDynamicOptions(optionsDynamic)` on every value: nothing unless
      the value is `"months"` or an object of type `"months"`. The preset
      gives the current month and the one before. An object gives
      `count` entries (2 when `count` is not a number, none when it is below
      one); entry `i` is the month `startOffset + step * i` months away (0
      and -1 when not numbers), written in the style of its `format`
      (`"monthYear"` when falsy) and in its normalized locale. */
  lemma DynamicOptionsSpec(d: Value, now: YearMonth, fmt: Formatter)
    requires now.year >= 100 && IsMonth(now)
    ensures d != Str("months") && !(Truthy(d) && Get(d, "type") == Str("months")) ==>
              DynamicOptions(d, now, fmt) == []
    ensures d == Str("months") ==>
              DynamicOptions(d, now, fmt) ==
                [fmt(now, DateStyle(Long, true), Undefined), fmt(PreviousMonth(now), DateStyle(Long, true), Undefined)]
    ensures Truthy(d) && Get(d, "type") == Str("months") ==>
              var count := if IsFinite(Get(d, "count")) then Get(d, "count").n else 2;
              var offset := if IsFinite(Get(d, "startOffset")) then Get(d, "startOffset").n else 0;
              var step := if IsFinite(Get(d, "step")) then Get(d, "step").n else -1;
              var style := StyleFor(if Truthy(Get(d, "format")) then Get(d, "format") else Str("monthYear"));
              var r := DynamicOptions(d, now, fmt);
              |r| == (if count > 0 then count else 0) &&
              forall i :: 0 <= i < |r| ==>
                exists ym :: IsMonth(ym) && MonthNumber(ym) == MonthNumber(now) + offset + step * i &&
                  r[i] == fmt(ym, style, NormalizeLocale(Get(d, "locale")))
  {
    if d == Str("months") {
      PresetMonths(now, fmt);
    } else if Truthy(d) && Get(d, "type") == Str("months") {
      var count := if IsFinite(Get(d, "count")) then Get(d, "count").n else 2;
      var offset := if IsFinite(Get(d, "startOffset")) then Get(d, "startOffset").n else 0;
      var step := if IsFinite(Get(d, "step")) then Get(d, "step").n else -1;
      var format := if Truthy(Get(d, "format")) then Get(d, "format") else Str("monthYear");
      var c := MonthConfig(count, offset, step, format, NormalizeLocale(Get(d, "locale")));
      assert ConfigOf(d) == Some(c);
      var r := DynamicOptions(d, now, fmt);
      assert r == MonthOptions(now, c, fmt);
      forall i | 0 <= i < |r|
        ensures exists ym :: IsMonth(ym) && MonthNumber(ym) == MonthNumber(now) + offset + step * i &&
                  r[i] == fmt(ym, StyleFor(format), NormalizeLocale(Get(d, "locale")))
      {
        MonthOptionsEntries(now, c, fmt, i);
        var ym := EntryMonth(now, c, i);
        assert IsMonth(ym) && MonthNumber(ym) == MonthNumber(now) + offset + step * i;
      }
    }
  }

  /** A field with no dynamic setting offers its own options, each once. */
  lemma StaticOnly(field: Value, now: YearMonth, fmt: Formatter)
    requires !Truthy(Get(field, "optionsDynamic"))
    ensures ResolveSelectOptions(field, now, fmt) == SetOf(StaticOptions(field))
  {
    assert StaticOptions(field) + [] == StaticOptions(field);
  }
}
