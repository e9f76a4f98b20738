/**
  The approval store writes every instant as fixed-width ISO text truncated to
  the second, lets SQL compare the texts, and elsewhere parses them back and
  compares instants. The lemmas here show that the two comparisons agree.
 */
module Timestamps {
  import opened Prelude

  /** A `datetime` in UTC; Python orders two of them field by field. */
  datatype RawInstant = Instant(year: nat, month: nat, day: nat, hour: nat, minute: nat, second: nat, micro: nat) {
    predicate InRange() {
      && 1 <= year <= 9999 && 1 <= month <= 12 && 1 <= day <= 31
      && hour < 24 && minute < 60 && second < 60 && micro < 1_000_000
    }

    function Truncated(): RawInstant { this.(micro := 0) }
  }

  type Instant = i: RawInstant | i.InRange() witness RawInstant.Instant(1, 1, 1, 0, 0, 0, 0)

  function DateFields(i: Instant): seq<nat> {
    [i.year, i.month, i.day, i.hour, i.minute, i.second]
  }

  predicate FieldsLe(a: seq<nat>, b: seq<nat>) {
    a == [] || (b != [] && (a[0] < b[0] || (a[0] == b[0] && FieldsLe(a[1..], b[1..]))))
  }

  /** `a <= b` on datetimes. */
  predicate NotAfter(a: Instant, b: Instant) {
    if DateFields(a) == DateFields(b) then a.micro <= b.micro else FieldsLe(DateFields(a), DateFields(b))
  }

  /** How one field is written: its width and the character behind it. */
  datatype Slot = Slot(width: nat, after: char)

  const LAYOUT: seq<Slot> := [Slot(4, '-'), Slot(2, '-'), Slot(2, 'T'), Slot(2, ':'), Slot(2, ':'), Slot(2, 'Z')]

  function Digit(n: nat): char
    requires n < 10
  {
    ('0' as int + n) as char
  }

  function Power10(w: nat): nat {
    if w == 0 then 1 else 10 * Power10(w - 1)
  }

  /** The last `w` decimal digits of `n`. */
  function Pad(n: nat, w: nat): (text: string)
    ensures |text| == w
  {
    if w == 0 then [] else Pad(n / 10, w - 1) + [Digit(n % 10)]
  }

  function Render(ns: seq<nat>, slots: seq<Slot>): string
    requires |ns| == |slots|
  {
    if ns == [] then [] else Pad(ns[0], slots[0].width) + ([slots[0].after] + Render(ns[1..], slots[1..]))
  }

  function Iso(i: Instant): string {
    Render(DateFields(i), LAYOUT)
  }

  function Number(s: string): Option<nat> {
    if s == [] then Some(0)
    else match Number(s[..|s| - 1])
         case Some(n) => if '0' <= s[|s| - 1] <= '9' then Some(10 * n + (s[|s| - 1] as int - '0' as int)) else None
         case None => None
  }

  function Scan(s: string, slots: seq<Slot>): Option<seq<nat>> {
    if slots == [] then if s == [] then Some([]) else None
    else
      var w := slots[0].width;
      if |s| <= w || s[w] != slots[0].after then None
      else match (Number(s[..w]), Scan(s[w + 1..], slots[1..]))
           case (Some(n), Some(ns)) => Some([n] + ns)
           case _ => None
  }

  /** `datetime.fromisoformat` on the one layout that the store writes; None is its ValueError. */
  function ParseTime(s: string): Option<Instant> {
    match Scan(s, LAYOUT)
    case None => None
    case Some(ns) =>
      if |ns| != 6 then None
      else
        var i := RawInstant.Instant(ns[0], ns[1], ns[2], ns[3], ns[4], ns[5], 0);
        if i.InRange() then Some(i) else None
  }

  lemma {:induction false} PadOrder(a: nat, b: nat, w: nat)
    requires a < Power10(w) && b < Power10(w)
    ensures Pad(a, w) == Pad(b, w) <==> a == b
    ensures TextLe(Pad(a, w), Pad(b, w)) <==> a <= b
  {
    if w > 0 {
      PadOrder(a / 10, b / 10, w - 1);
      var (x, y) := ([Digit(a % 10)], [Digit(b % 10)]);
      assert Pad(a, w)[..w - 1] == Pad(a / 10, w - 1) && Pad(b, w)[..w - 1] == Pad(b / 10, w - 1);
      assert Pad(a, w)[w - 1] == x[0] && Pad(b, w)[w - 1] == y[0];
      TextLePrefix(Pad(a / 10, w - 1), Pad(b / 10, w - 1), x, y);
      assert a == 10 * (a / 10) + a % 10 && b == 10 * (b / 10) + b % 10;
      assert TextLe(x, y) <==> a % 10 <= b % 10;
    }
  }

  lemma {:induction false} NumberOfPad(n: nat, w: nat)
    requires n < Power10(w)
    ensures Number(Pad(n, w)) == Some(n)
  {
    if w > 0 {
      NumberOfPad(n / 10, w - 1);
      assert Pad(n, w)[..w - 1] == Pad(n / 10, w - 1);
    }
  }

  /** A written stamp, character by character: `YYYY-MM-DDTHH:MM:SSZ`. */
  lemma IsoShape(i: Instant)
    ensures var t := Iso(i);
            && |t| == 20 && t[4] == t[7] == '-' && t[10] == 'T' && t[13] == t[16] == ':' && t[19] == 'Z'
            && Number(t[..4]) == Some(i.year) && Number(t[5..7]) == Some(i.month) && Number(t[8..10]) == Some(i.day)
            && Number(t[11..13]) == Some(i.hour) && Number(t[14..16]) == Some(i.minute)
            && Number(t[17..19]) == Some(i.second)
  {
    var ns := DateFields(i);
    RenderLength(ns, LAYOUT);
    assert Offset(LAYOUT, 1) == 5 && Offset(LAYOUT, 2) == 8 && Offset(LAYOUT, 3) == 11;
    assert Offset(LAYOUT, 4) == 14 && Offset(LAYOUT, 5) == 17 && Offset(LAYOUT, 6) == 20;
    var t := Iso(i);
    FieldStands(ns, LAYOUT, 0, t, 0, Pad(i.year, 4)); FieldStands(ns, LAYOUT, 1, t, 5, Pad(i.month, 2));
    FieldStands(ns, LAYOUT, 2, t, 8, Pad(i.day, 2)); FieldStands(ns, LAYOUT, 3, t, 11, Pad(i.hour, 2));
    FieldStands(ns, LAYOUT, 4, t, 14, Pad(i.minute, 2)); FieldStands(ns, LAYOUT, 5, t, 17, Pad(i.second, 2));
    NumberOfPad(i.year, 4); NumberOfPad(i.month, 2); NumberOfPad(i.day, 2);
    NumberOfPad(i.hour, 2); NumberOfPad(i.minute, 2); NumberOfPad(i.second, 2);
  }

  /** Where field `n` begins. */
  ghost function Offset(slots: seq<Slot>, n: nat): nat
    requires n <= |slots|
  {
    if n == 0 then 0 else Offset(slots, n - 1) + slots[n - 1].width + 1
  }

  lemma {:induction false} OffsetTail(slots: seq<Slot>, n: nat)
    requires 1 <= n <= |slots|
    ensures Offset(slots, n) == slots[0].width + 1 + Offset(slots[1..], n - 1)
  {
    if n > 1 { OffsetTail(slots, n - 1); }
  }

  lemma {:induction false} RenderLength(ns: seq<nat>, slots: seq<Slot>)
    requires |ns| == |slots|
    ensures |Render(ns, slots)| == Offset(slots, |slots|)
  {
    if ns != [] {
      OffsetTail(slots, |slots|);
      RenderLength(ns[1..], slots[1..]);
    }
  }

  /** Each field stands at its place, with its character behind it. */
  lemma {:induction false} FieldAt(ns: seq<nat>, slots: seq<Slot>, n: nat)
    requires n < |ns| == |slots|
    ensures Offset(slots, n) <= |Render(ns, slots)|
    ensures Pad(ns[n], slots[n].width) + [slots[n].after] <= Render(ns, slots)[Offset(slots, n)..]
  {
    if n == 0 {
      assert Render(ns, slots) == Pad(ns[0], slots[0].width) + [slots[0].after] + Render(ns[1..], slots[1..]);
    } else {
      FieldAt(ns[1..], slots[1..], n - 1);
      OffsetTail(slots, n);
      Shifted(Pad(ns[0], slots[0].width) + [slots[0].after], Render(ns[1..], slots[1..]), Offset(slots[1..], n - 1));
      assert Render(ns, slots) == Pad(ns[0], slots[0].width) + [slots[0].after] + Render(ns[1..], slots[1..]);
    }
  }

  lemma FieldStands(ns: seq<nat>, slots: seq<Slot>, n: nat, t: string, at: nat, text: string)
    requires n < |ns| == |slots| && t == Render(ns, slots)
    requires at == Offset(slots, n) && text == Pad(ns[n], slots[n].width)
    ensures |t| > at + |text| && t[at..at + |text|] == text && t[at + |text|] == slots[n].after
  {
    FieldAt(ns, slots, n);
    CutsOut(t, at, text, slots[n].after);
  }

  lemma CutsOut(t: string, at: nat, text: string, after: char)
    requires at <= |t| && text + [after] <= t[at..]
    ensures |t| > at + |text| && t[at..at + |text|] == text && t[at + |text|] == after
  {
    assert t[at..][|text|] == after;
    assert t[at..at + |text|] == (text + [after])[..|text|];
  }

  lemma Shifted(head: string, rest: string, at: nat)
    requires at <= |rest|
    ensures (head + rest)[|head| + at..] == rest[at..]
  {
  }

  predicate Fits(ns: seq<nat>, slots: seq<Slot>) {
    |ns| == |slots| && forall i :: 0 <= i < |ns| ==> ns[i] < Power10(slots[i].width)
  }

  /** Texts of one layout compare as their fields do. */
  lemma {:induction false} RenderOrder(a: seq<nat>, b: seq<nat>, slots: seq<Slot>)
    requires Fits(a, slots) && Fits(b, slots)
    ensures TextLe(Render(a, slots), Render(b, slots)) <==> FieldsLe(a, b)
    decreases |slots|
  {
    if slots != [] {
      var (w, sep) := (slots[0].width, [slots[0].after]);
      var (x, y) := (Render(a[1..], slots[1..]), Render(b[1..], slots[1..]));
      RenderOrder(a[1..], b[1..], slots[1..]);
      PadOrder(a[0], b[0], w);
      TextLePrefix(Pad(a[0], w), Pad(b[0], w), sep + x, sep + y);
      TextLePrefix(sep, sep, x, y);
    }
  }

  lemma {:induction false} ScanOfRender(ns: seq<nat>, slots: seq<Slot>)
    requires Fits(ns, slots)
    ensures Scan(Render(ns, slots), slots) == Some(ns)
    decreases |slots|
  {
    if slots != [] {
      ScanOfRender(ns[1..], slots[1..]);
      NumberOfPad(ns[0], slots[0].width);
      ScanHead(Pad(ns[0], slots[0].width), Render(ns[1..], slots[1..]), slots);
      assert ns == [ns[0]] + ns[1..];
    }
  }

  /** Scanning reads the first field and goes on behind it. */
  lemma ScanHead(field: string, rest: string, slots: seq<Slot>)
    requires slots != [] && |field| == slots[0].width
    ensures Scan(field + ([slots[0].after] + rest), slots) ==
            match (Number(field), Scan(rest, slots[1..]))
            case (Some(n), Some(ns)) => Some([n] + ns)
            case _ => None
  {
    var s := field + ([slots[0].after] + rest);
    assert s[..|field|] == field && s[|field| + 1..] == rest;
  }

  lemma FieldsFit(i: Instant)
    ensures Fits(DateFields(i), LAYOUT)
  {
    assert Power10(1) == 10 && Power10(2) == 100 && Power10(3) == 1000 && Power10(4) == 10_000;
  }

  lemma {:induction false} FieldsLeReflexive(a: seq<nat>)
    ensures FieldsLe(a, a)
  {
    if a != [] { FieldsLeReflexive(a[1..]); }
  }

  /** SQL's comparison of two stored texts is the comparison of the truncated instants. */
  lemma IsoOrder(a: Instant, b: Instant)
    ensures TextLe(Iso(a), Iso(b)) <==> NotAfter(a.Truncated(), b.Truncated())
  {
    FieldsFit(a); FieldsFit(b);
    RenderOrder(DateFields(a), DateFields(b), LAYOUT);
    FieldsLeReflexive(DateFields(a));
    assert DateFields(a.Truncated()) == DateFields(a) && DateFields(b.Truncated()) == DateFields(b);
  }

  /** Parsing what was written recovers the instant up to the second. */
  lemma ParseIso(i: Instant)
    ensures ParseTime(Iso(i)) == Some(i.Truncated())
  {
    FieldsFit(i);
    ScanOfRender(DateFields(i), LAYOUT);
  }

  /** The text test of a sweep and the datetime test of a decision agree at every instant, sub-second ones included. */
  ghost predicate Readable(text: string) {
    ParseTime(text).Some? && forall now: Instant :: TextLe(text, Iso(now)) <==> NotAfter(ParseTime(text).value, now)
  }

  lemma ExpiryAgreement(deadline: Instant)
    ensures Readable(Iso(deadline))
  {
    ParseIso(deadline);
    forall now: Instant
      ensures TextLe(Iso(deadline), Iso(now)) <==> NotAfter(deadline.Truncated(), now)
    {
      IsoOrder(deadline, now);
      assert DateFields(deadline.Truncated()) == DateFields(deadline) && DateFields(now.Truncated()) == DateFields(now);
    }
  }
}
