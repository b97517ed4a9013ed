/** `src/types/duration.rs`: durations in four u32 fields, their ISO 8601 form, their sum. */
module Durations {
  import opened Wrappers
  import opened Decimal

  const U32_MAX: nat := 0xFFFF_FFFF
  const U64_MAX: nat := 0xFFFF_FFFF_FFFF_FFFF

  type u32 = n: nat | n <= U32_MAX

  datatype Duration = Duration(days: u32, hours: u32, minutes: u32, seconds: u32) {

    function ToSeconds(): nat {
      seconds + minutes * 60 + hours * 3600 + days * 86400
    }

    predicate IsNormal() {
      hours < 24 && minutes < 60 && seconds < 60
    }
  }

  const ZERO := Duration(0, 0, 0, 0)

  // ----- Text form -----

  /** One part of the text form: a number and its unit. */
  function Part(n: u32, unit: char): string {
    Print(n) + [unit]
  }

  /** A part that is left out when it is zero. */
  function Optional(n: u32, unit: char): string {
    if n > 0 then Part(n, unit) else ""
  }

  function Iso8601(d: Duration): string {
    var parts := Optional(d.days, 'D') + Optional(d.hours, 'H') + Optional(d.minutes, 'M');
    "PT" + (parts + if d.seconds > 0 || parts == "" then Part(d.seconds, 'S') else "")
  }

  function Join(parts: seq<string>): string {
    if parts == [] then "" else Join(parts[..|parts| - 1]) + parts[|parts| - 1]
  }

  lemma JoinAppends(parts: seq<string>, p: string)
    ensures Join(parts + [p]) == Join(parts) + p
  {
    assert (parts + [p])[..|parts|] == parts;
  }

  /** The parts so far, with one more that is left out when it is zero. */
  function With(parts: seq<string>, n: u32, unit: char): seq<string> {
    if n > 0 then parts + [Part(n, unit)] else parts
  }

  function Parts(d: Duration): seq<string> {
    var parts := With(With(With([], d.days, 'D'), d.hours, 'H'), d.minutes, 'M');
    if d.seconds > 0 || parts == [] then parts + [Part(d.seconds, 'S')] else parts
  }

  lemma JoinWith(parts: seq<string>, n: u32, unit: char)
    requires parts == [] <==> Join(parts) == ""
    ensures Join(With(parts, n, unit)) == Join(parts) + Optional(n, unit)
    ensures With(parts, n, unit) == [] <==> Join(With(parts, n, unit)) == ""
  {
    JoinAppends(parts, Part(n, unit));
    assert Join(parts) + "" == Join(parts);
  }

  lemma JoinedUnits(d: Duration)
    ensures var parts := With(With(With([], d.days, 'D'), d.hours, 'H'), d.minutes, 'M');
            && Join(parts) == Optional(d.days, 'D') + Optional(d.hours, 'H') + Optional(d.minutes, 'M')
            && (parts == [] <==> Join(parts) == "")
  {
    var parts := With([], d.days, 'D');
    JoinWith([], d.days, 'D');
    assert "" + Optional(d.days, 'D') == Optional(d.days, 'D');
    JoinWith(parts, d.hours, 'H');
    JoinWith(With(parts, d.hours, 'H'), d.minutes, 'M');
  }

  lemma JoinedLast(parts: seq<string>, text: string, n: u32)
    requires Join(parts) == text && (parts == [] <==> text == "")
    ensures Join(if n > 0 || parts == [] then parts + [Part(n, 'S')] else parts)
         == text + if n > 0 || text == "" then Part(n, 'S') else ""
  {
    JoinAppends(parts, Part(n, 'S'));
    assert text + "" == text;
  }

  lemma JoinedParts(d: Duration)
    ensures "PT" + Join(Parts(d)) == Iso8601(d)
  {
    var parts := With(With(With([], d.days, 'D'), d.hours, 'H'), d.minutes, 'M');
    JoinedUnits(d);
    JoinedLast(parts, Join(parts), d.seconds);
  }

  method ToIso8601(d: Duration) returns (s: string)
    ensures s == Iso8601(d)
  {
    var parts: seq<string> := [];
    if d.days > 0 {
      parts := parts + [Part(d.days, 'D')];
    }
    assert parts == With([], d.days, 'D');
    if d.hours > 0 {
      parts := parts + [Part(d.hours, 'H')];
    }
    assert parts == With(With([], d.days, 'D'), d.hours, 'H');
    if d.minutes > 0 {
      parts := parts + [Part(d.minutes, 'M')];
    }
    if d.seconds > 0 || parts == [] {
      parts := parts + [Part(d.seconds, 'S')];
    }
    assert parts == Parts(d);
    JoinedParts(d);
    s := "PT" + Join(parts);
  }

  datatype ParseError = MissingPrefix | MissingNumber | InvalidNumber | UnknownUnit(c: char)

  /** One unit letter after the digits in `buffer`. */
  function ReadUnit(d: Duration, buffer: string, c: char): Result<Duration, ParseError>
    requires AllDigits(buffer)
  {
    if buffer == "" then Err(MissingNumber)
    else if Read(buffer) > U32_MAX then Err(InvalidNumber)
    else
      var n: u32 := Read(buffer);
      match c
      case 'D' => Ok(d.(days := n))
      case 'H' => Ok(d.(hours := n))
      case 'M' => Ok(d.(minutes := n))
      case 'S' => Ok(d.(seconds := n))
      case _ => Err(UnknownUnit(c))
  }

  /** Reads the rest of the text, given the fields and the digits read so far. */
  function ReadParts(s: string, d: Duration, buffer: string): Result<Duration, ParseError>
    requires AllDigits(buffer)
  {
    if s == "" then Ok(d)
    else if IsDigit(s[0]) then ReadParts(s[1..], d, buffer + [s[0]])
    else
      match ReadUnit(d, buffer, s[0])
      case Err(e) => Err(e)
      case Ok(next) => ReadParts(s[1..], next, "")
  }

  function Parse(s: string): Result<Duration, ParseError> {
    if "PT" <= s then ReadParts(s[2..], ZERO, "") else Err(MissingPrefix)
  }

  method ParseIso8601(s: string) returns (r: Result<Duration, ParseError>)
    ensures r == Parse(s)
  {
    if !("PT" <= s) {
      return Err(MissingPrefix);
    }
    var text := s[2..];
    var duration := ZERO;
    var buffer := "";
    for i := 0 to |text|
      invariant AllDigits(buffer)
      invariant ReadParts(text[i..], duration, buffer) == Parse(s)
    {
      var c := text[i];
      assert text[i..][0] == c && text[i..][1..] == text[i + 1..];
      if IsDigit(c) {
        buffer := buffer + [c];
      } else {
        if buffer == "" {
          return Err(MissingNumber);
        }
        if Read(buffer) > U32_MAX {
          return Err(InvalidNumber);
        }
        var n: u32 := Read(buffer);
        buffer := "";
        match c {
          case 'D' => duration := duration.(days := n);
          case 'H' => duration := duration.(hours := n);
          case 'M' => duration := duration.(minutes := n);
          case 'S' => duration := duration.(seconds := n);
          case _ => return Err(UnknownUnit(c));
        }
      }
    }
    r := Ok(duration);
  }

  /** Digits are collected, whatever follows. */
  lemma {:induction false} ReadDigits(digits: string, s: string, d: Duration, buffer: string)
    requires AllDigits(digits) && AllDigits(buffer)
    ensures ReadParts(digits + s, d, buffer) == ReadParts(s, d, buffer + digits)
    decreases |digits|
  {
    if digits == "" {
      assert digits + s == s && buffer + digits == buffer;
    } else {
      assert (digits + s)[1..] == digits[1..] + s;
      assert buffer + [digits[0]] + digits[1..] == buffer + digits;
      ReadDigits(digits[1..], s, d, buffer + [digits[0]]);
    }
  }

  function SetField(d: Duration, unit: char, n: u32): Duration {
    match unit
    case 'D' => d.(days := n)
    case 'H' => d.(hours := n)
    case 'M' => d.(minutes := n)
    case _ => d.(seconds := n)
  }

  lemma ReadPart(n: u32, unit: char, s: string, d: Duration)
    requires unit in ['D', 'H', 'M', 'S']
    ensures ReadParts(Part(n, unit) + s, d, "") == ReadParts(s, SetField(d, unit, n), "")
  {
    ReadPrint(n);
    assert Part(n, unit) + s == Print(n) + ([unit] + s);
    ReadDigits(Print(n), [unit] + s, d, "");
    assert "" + Print(n) == Print(n);
    assert ([unit] + s)[1..] == s;
  }

  lemma ReadOptional(n: u32, unit: char, s: string, d: Duration)
    requires unit in ['D', 'H', 'M', 'S'] && SetField(d, unit, 0) == d
    ensures ReadParts(Optional(n, unit) + s, d, "") == ReadParts(s, SetField(d, unit, n), "")
  {
    if n > 0 {
      ReadPart(n, unit, s, d);
    } else {
      assert Optional(n, unit) + s == s;
    }
  }

  lemma ReadLast(n: u32, shown: bool, d: Duration)
    requires d.seconds == 0 && (n > 0 ==> shown)
    ensures ReadParts(if shown then Part(n, 'S') else "", d, "") == Ok(d.(seconds := n))
  {
    if shown {
      assert Part(n, 'S') == Part(n, 'S') + "";
      ReadPart(n, 'S', "", d);
    }
  }

  lemma ReadAll(d: Duration, tail: string)
    ensures ReadParts(Optional(d.days, 'D') + (Optional(d.hours, 'H') + (Optional(d.minutes, 'M') + tail)), ZERO, "")
         == ReadParts(tail, d.(seconds := 0), "")
  {
    var hh, mm := Optional(d.hours, 'H'), Optional(d.minutes, 'M');
    ReadOptional(d.days, 'D', hh + (mm + tail), ZERO);
    ReadOptional(d.hours, 'H', mm + tail, ZERO.(days := d.days));
    ReadOptional(d.minutes, 'M', tail, ZERO.(days := d.days, hours := d.hours));
  }

  lemma ParsePrefixed(text: string)
    ensures Parse("PT" + text) == ReadParts(text, ZERO, "")
  {
    assert ("PT" + text)[2..] == text;
  }

  lemma RightNested(a: string, b: string, c: string, d: string)
    ensures a + b + c + d == a + (b + (c + d))
  {
  }

  /** Every duration, zero fields and all, is read back as it was printed. */
  lemma ParseAfterPrint(d: Duration)
    ensures Parse(Iso8601(d)) == Ok(d)
  {
    var dd, hh, mm := Optional(d.days, 'D'), Optional(d.hours, 'H'), Optional(d.minutes, 'M');
    var shown := d.seconds > 0 || dd + hh + mm == "";
    var ss := if shown then Part(d.seconds, 'S') else "";
    RightNested(dd, hh, mm, ss);
    ParsePrefixed(dd + (hh + (mm + ss)));
    ReadAll(d, ss);
    ReadLast(d.seconds, shown, d.(seconds := 0));
  }

  // ----- Which texts are durations -----

  /** Digits and the letter that ends them. */
  datatype Piece = Piece(digits: string, unit: char)

  function Units(): set<char> {
    {'D', 'H', 'M', 'S'}
  }

  predicate PieceOk(x: Piece) {
    x.digits != "" && AllDigits(x.digits) && Read(x.digits) <= U32_MAX && x.unit in Units()
  }

  predicate PiecesOk(ps: seq<Piece>) {
    forall i :: 0 <= i < |ps| ==> PieceOk(ps[i])
  }

  function PiecesText(ps: seq<Piece>): string {
    if ps == [] then "" else ps[0].digits + [ps[0].unit] + PiecesText(ps[1..])
  }

  /** The number that stands last before a letter, or none of that letter. */
  function LastOf(ps: seq<Piece>, unit: char): u32
    requires PiecesOk(ps)
  {
    if ps == [] then 0
    else if ps[|ps| - 1].unit == unit then Read(ps[|ps| - 1].digits)
    else LastOf(ps[..|ps| - 1], unit)
  }

  function FieldsOf(ps: seq<Piece>): Duration
    requires PiecesOk(ps)
  {
    Duration(LastOf(ps, 'D'), LastOf(ps, 'H'), LastOf(ps, 'M'), LastOf(ps, 'S'))
  }

  /** The fields set so far, with one more piece. */
  function Extended(ps: seq<Piece>, x: Piece): (qs: seq<Piece>)
    ensures PiecesOk(ps) && PieceOk(x) ==> PiecesOk(qs)
  {
    ps + [x]
  }

  lemma FieldsExtended(ps: seq<Piece>, x: Piece)
    requires PiecesOk(ps) && PieceOk(x)
    ensures FieldsOf(Extended(ps, x)) == SetField(FieldsOf(ps), x.unit, Read(x.digits))
  {
    assert (ps + [x])[..|ps|] == ps;
  }

  lemma {:induction false} TextAppends(ps: seq<Piece>, x: Piece)
    ensures PiecesText(ps + [x]) == PiecesText(ps) + (x.digits + [x.unit])
  {
    if ps != [] {
      assert (ps + [x])[1..] == ps[1..] + [x];
      TextAppends(ps[1..], x);
    } else {
      assert [x][1..] == [];
    }
  }

  /** A digit read, and a letter read. */
  lemma TextShifts(before: string, buffer: string, s: string)
    requires s != ""
    ensures before + (buffer + [s[0]]) + s[1..] == before + buffer + s
    ensures before + (buffer + [s[0]]) + "" + s[1..] == before + buffer + s
  {
    assert s == [s[0]] + s[1..];
  }

  /** A text read to its end after the pieces `ps` consists of pieces and digits that belong to none. */
  lemma {:induction false} ReadIsPieces(s: string, ps: seq<Piece>, buffer: string) returns (qs: seq<Piece>, tail: string)
    requires PiecesOk(ps) && AllDigits(buffer) && ReadParts(s, FieldsOf(ps), buffer).Ok?
    ensures PiecesOk(qs) && AllDigits(tail)
    ensures PiecesText(ps) + buffer + s == PiecesText(qs) + tail
    ensures ReadParts(s, FieldsOf(ps), buffer) == Ok(FieldsOf(qs))
    decreases |s|
  {
    if s == "" {
      qs, tail := ps, buffer;
    } else if IsDigit(s[0]) {
      qs, tail := ReadIsPieces(s[1..], ps, buffer + [s[0]]);
      TextShifts(PiecesText(ps), buffer, s);
    } else {
      var x := Piece(buffer, s[0]);
      FieldsExtended(ps, x);
      TextAppends(ps, x);
      qs, tail := ReadIsPieces(s[1..], Extended(ps, x), "");
      TextShifts(PiecesText(ps), buffer, s);
    }
  }

  /** The first thing wrong with a text: digits `x.digits`, after good pieces, before the character `x.unit`. */
  predicate Fault(x: Piece, e: ParseError) {
    && AllDigits(x.digits) && !IsDigit(x.unit)
    && (if x.digits == "" then e == MissingNumber
        else if Read(x.digits) > U32_MAX then e == InvalidNumber
        else x.unit !in Units() && e == UnknownUnit(x.unit))
  }

  lemma {:induction false} ReadFails(s: string, ps: seq<Piece>, buffer: string)
    returns (qs: seq<Piece>, x: Piece, rest: string)
    requires PiecesOk(ps) && AllDigits(buffer) && ReadParts(s, FieldsOf(ps), buffer).Err?
    ensures PiecesOk(qs) && Fault(x, ReadParts(s, FieldsOf(ps), buffer).error)
    ensures PiecesText(ps) + buffer + s == PiecesText(qs) + (x.digits + [x.unit]) + rest
    decreases |s|
  {
    TextShifts(PiecesText(ps), buffer, s);
    if IsDigit(s[0]) {
      qs, x, rest := ReadFails(s[1..], ps, buffer + [s[0]]);
    } else if ReadUnit(FieldsOf(ps), buffer, s[0]).Err? {
      qs, x, rest := ps, Piece(buffer, s[0]), s[1..];
    } else {
      var y := Piece(buffer, s[0]);
      FieldsExtended(ps, y);
      TextAppends(ps, y);
      qs, x, rest := ReadFails(s[1..], Extended(ps, y), "");
    }
  }

  /** One piece is read as its letter says. */
  lemma PieceIsRead(x: Piece, s: string, d: Duration)
    requires PieceOk(x)
    ensures ReadParts(x.digits + [x.unit] + s, d, "") == ReadParts(s, SetField(d, x.unit, Read(x.digits)), "")
  {
    assert x.digits + [x.unit] + s == x.digits + ([x.unit] + s);
    ReadDigits(x.digits, [x.unit] + s, d, "");
    assert "" + x.digits == x.digits && ([x.unit] + s)[1..] == s;
  }

  lemma TailIsIgnored(tail: string, d: Duration)
    requires AllDigits(tail)
    ensures ReadParts(tail, d, "") == Ok(d)
  {
    assert tail + "" == tail;
    ReadDigits(tail, "", d, "");
  }

  lemma {:induction false} PiecesAreRead(ps: seq<Piece>, qs: seq<Piece>, tail: string)
    requires PiecesOk(ps) && PiecesOk(qs) && AllDigits(tail)
    ensures PiecesOk(ps + qs)
    ensures ReadParts(PiecesText(qs) + tail, FieldsOf(ps), "") == Ok(FieldsOf(ps + qs))
    decreases |qs|
  {
    if qs == [] {
      assert ps + qs == ps && PiecesText(qs) + tail == tail;
      TailIsIgnored(tail, FieldsOf(ps));
    } else {
      var x := qs[0];
      assert ps + qs == Extended(ps, x) + qs[1..];
      assert PiecesText(qs) + tail == x.digits + [x.unit] + (PiecesText(qs[1..]) + tail);
      PieceIsRead(x, PiecesText(qs[1..]) + tail, FieldsOf(ps));
      FieldsExtended(ps, x);
      PiecesAreRead(Extended(ps, x), qs[1..], tail);
    }
  }

  /** `s` is "PT", pieces, and perhaps digits that no letter follows. */
  predicate Spelled(s: string, ps: seq<Piece>, tail: string) {
    PiecesOk(ps) && AllDigits(tail) && s == "PT" + (PiecesText(ps) + tail)
  }

  /**
   Exactly which texts are read, and as what: "PT" and numbers of 32 bits, each followed by one
   of the letters D, H, M and S in any order; of one letter the last counts; digits without a
   letter at the end are ignored.
   */
  lemma ParsesExactly(s: string, d: Duration)
    ensures Parse(s) == Ok(d) <==> exists ps, tail :: Spelled(s, ps, tail) && d == FieldsOf(ps)
  {
    assert FieldsOf([]) == ZERO;
    if Parse(s) == Ok(d) {
      var ps, tail := ReadIsPieces(s[2..], [], "");
      assert PiecesText([]) + "" + s[2..] == s[2..] && s == "PT" + s[2..];
      assert Spelled(s, ps, tail);
    }
    if ps, tail :| Spelled(s, ps, tail) && d == FieldsOf(ps) {
      ParsePrefixed(PiecesText(ps) + tail);
      PiecesAreRead([], ps, tail);
      assert [] + ps == ps;
    }
  }

  /** A text that is refused after the prefix has a first piece that is none. */
  lemma RefusesTheFirstFault(text: string) returns (ps: seq<Piece>, x: Piece, rest: string)
    requires Parse("PT" + text).Err?
    ensures PiecesOk(ps) && text == PiecesText(ps) + (x.digits + [x.unit]) + rest
    ensures Fault(x, Parse("PT" + text).error)
  {
    assert FieldsOf([]) == ZERO;
    ParsePrefixed(text);
    ps, x, rest := ReadFails(text, [], "");
    assert PiecesText([]) + "" + text == text;
  }

  /** Without the prefix nothing is read. */
  lemma RefusesOtherPrefix(s: string)
    ensures Parse(s) == Err(MissingPrefix) <==> |s| < 2 || s[0] != 'P' || s[1] != 'T'
  {
    if |s| >= 2 && s[0] == 'P' && s[1] == 'T' {
      assert "PT" <= s;
      if Parse(s).Err? {
        assert s == "PT" + s[2..];
        var ps, x, rest := RefusesTheFirstFault(s[2..]);
      }
    }
  }

  // ----- Sum -----

  const MAX_TOTAL_SECONDS: nat := U32_MAX * 86_400 + 23 * 3_600 + 59 * 60 + 59

  function FromSeconds(total: nat): Duration
    requires total <= MAX_TOTAL_SECONDS
  {
    Duration(total / 86400, (total % 86400) / 3600, (total % 3600) / 60, total % 60)
  }

  /** `+`; the u64 addition saturates before the clamp. */
  function Add(a: Duration, b: Duration): Duration {
    FromSeconds(Min(Min(a.ToSeconds() + b.ToSeconds(), U64_MAX), MAX_TOTAL_SECONDS))
  }

  /** Days are whole hours and hours whole minutes. */
  lemma SameMinutes(total: nat)
    ensures (total % 86400) % 3600 == total % 3600 && (total % 3600) % 60 == total % 60
  {
  }

  lemma FromSecondsIsNormal(total: nat)
    requires total <= MAX_TOTAL_SECONDS
    ensures FromSeconds(total).IsNormal() && FromSeconds(total).ToSeconds() == total
  {
    SameMinutes(total);
    assert total % 86400 == (total % 86400) / 3600 * 3600 + total % 3600;
    assert total % 3600 == (total % 3600) / 60 * 60 + total % 60;
  }

  /** The sum is the normalised duration of the summed seconds, clamped to the largest one. */
  lemma {:induction false} SumIsClampedSeconds(a: Duration, b: Duration)
    ensures Add(a, b).IsNormal()
    ensures Add(a, b).ToSeconds() == Min(a.ToSeconds() + b.ToSeconds(), MAX_TOTAL_SECONDS)
  {
    FromSecondsIsNormal(Min(a.ToSeconds() + b.ToSeconds(), MAX_TOTAL_SECONDS));
  }

  /** A normalised duration is determined by its seconds, so the sum is the only one possible. */
  lemma {:induction false} NormalFormIsUnique(a: Duration, b: Duration)
    requires a.IsNormal() && b.IsNormal() && a.ToSeconds() == b.ToSeconds()
    ensures a == b
  {
    assert a.days == b.days;
    assert a.hours == b.hours;
    assert a.minutes == b.minutes;
  }

  // ----- Some durations -----

  lemma SmallNumbers()
    ensures Print(1) == "1" && Print(2) == "2" && Print(3) == "3" && Print(4) == "4"
    ensures Print(0) == "0" && Print(10) == "10" && Print(30) == "30"
  {
    assert Print(10) == Print(1) + "0" && Print(30) == Print(3) + "0";
  }

  lemma SomeDurations()
    ensures Iso8601(Duration(0, 0, 0, 0)) == "PT0S"
    ensures Iso8601(Duration(0, 1, 30, 0)) == "PT1H30M"
    ensures Iso8601(Duration(1, 2, 3, 4)) == "PT1D2H3M4S"
  {
    SmallNumbers();
    assert Part(1, 'H') + Part(30, 'M') == "1H30M";
    assert Part(1, 'D') + Part(2, 'H') + Part(3, 'M') == "1D2H3M";
  }

  lemma SomeSeconds()
    ensures Duration(1, 2, 3, 4).ToSeconds() == 93_784
    ensures Add(Duration(0, 23, 59, 59), Duration(0, 0, 0, 1)) == Duration(1, 0, 0, 0)
    ensures Duration(4_294_967_295, 23, 59, 59).ToSeconds() == MAX_TOTAL_SECONDS
  {
  }
}
