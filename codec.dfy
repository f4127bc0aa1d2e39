/**
  The one-line record format `name,length,place,extra,amount` of the boat
  file: the `sscanf` pattern `%127[^,],%d,%15[^,],%15[^,],%lf` both
  `ReadBoatsFromFile` and `AddBoat` use, the two ways they turn the scanned
  fields into a boat, and the `fprintf` sequence of `WriteBoatsToFile`.
 */
module Codec {
  import opened Wrappers
  import opened Text
  import opened Numbers
  import opened Boats
  import opened FileLines

  /** `%127[^,]` into `name[128]`. */
  const NameWidth: nat := 127
  /** `%15[^,]` into `placeStr[16]` and `extra[16]`. */
  const FieldWidth: nat := 15
  /** `trailerTag[16]` holds at most 15 characters. */
  const TagLength: nat := 15

  /** A character `%w[^,]` takes: neither a comma nor the NUL that ends a C string. */
  predicate FieldChar(c: char) {
    c != ',' && c != '\0'
  }

  /** A text that `%w[^,]` takes whole. */
  predicate FieldText(s: string) {
    forall i :: 0 <= i < |s| ==> FieldChar(s[i])
  }

  // ------------------------------------------------------------ scanning

  /**
    How many characters `%w[^,]` takes: up to `width`, stopping at a comma
    or at the end of the C string (the end of the text or a NUL).
   */
  function FieldRun(s: string, width: nat): (k: nat)
    ensures k <= width && k <= |s|
    ensures forall i :: 0 <= i < k ==> FieldChar(s[i])
    ensures k < width && k < |s| ==> !FieldChar(s[k])
  {
    if width == 0 || s == [] || !FieldChar(s[0]) then 0 else 1 + FieldRun(s[1..], width - 1)
  }

  /** `%w[^,]`: the field and the text after it, or None when not even one character matches. */
  function ScanField(s: string, width: nat): (r: Option<(string, string)>)
    ensures r.Some? ==> 1 <= |r.value.0| <= width && FieldText(r.value.0)
  {
    var k := FieldRun(s, width);
    if k == 0 then None else Some((s[..k], s[k..]))
  }

  /** A literal comma of the pattern followed by `%d`. */
  function CommaInt(s: string): Option<(int, string)>
  {
    if s != [] && s[0] == ',' then ScanInt(s[1..]) else None
  }

  /** A literal comma of the pattern followed by `%15[^,]`. */
  function CommaField(s: string): Option<(string, string)>
  {
    if s != [] && s[0] == ',' then ScanField(s[1..], FieldWidth) else None
  }

  /** A literal comma of the pattern followed by `%lf`. */
  function CommaCents(s: string): Option<(int, string)>
  {
    if s != [] && s[0] == ',' then ScanCents(s[1..]) else None
  }

  /**
    What `sscanf` stores: `count` is its result, the number of fields
    converted before the first failure. A field it did not reach holds a
    default here (empty text, zero); in the C code it is left uninitialised.
   */
  datatype Fields = Fields(count: nat, name: string, length: int, placeText: string, extra: string, amount: int)

  /** What the field widths and the `[^,]` sets guarantee about scanned fields. */
  predicate Scanned(f: Fields)
  {
    && f.count <= 5
    && |f.name| <= NameWidth && FieldText(f.name)
    && (f.count >= 1 ==> 1 <= |f.name|)
    && |f.extra| <= FieldWidth && FieldText(f.extra)
    && (f.count >= 4 ==> 1 <= |f.extra|)
  }

  /** `sscanf(line, "%127[^,],%d,%15[^,],%15[^,],%lf", ...)` */
  function ScanLine(line: string): (f: Fields)
    ensures Scanned(f)
  {
    match ScanField(line, NameWidth)
    case None => Fields(0, "", 0, "", "", 0)
    case Some((name, r1)) =>
      match CommaInt(r1)
      case None => Fields(1, name, 0, "", "", 0)
      case Some((length, r2)) =>
        match CommaField(r2)
        case None => Fields(2, name, length, "", "", 0)
        case Some((placeText, r3)) =>
          match CommaField(r3)
          case None => Fields(3, name, length, placeText, "", 0)
          case Some((extra, r4)) =>
            match CommaCents(r4)
            case None => Fields(4, name, length, placeText, extra, 0)
            case Some((amount, _)) => Fields(5, name, length, placeText, extra, amount)
  }

  // ------------------------------------------------------------ decoding

  /** `strncpy` of at most `n` characters. */
  function Truncate(s: string, n: nat): (r: string)
    ensures |r| <= n
  {
    if |s| <= n then s else s[..n]
  }

  /**
    The location `ReadBoatsFromFile` stores for a place: `atoi` of the
    extra field for a slip or storage number, its first character for a
    bay letter (the terminating NUL of an empty field), the field itself
    for a trailer tag.
   */
  function LoadLocation(p: Place, extra: string): (loc: Location)
    ensures PlaceOf(loc) == p
  {
    match p
    case Slip => SlipNumber(Atoi(extra))
    case Land => BayLetter(if extra == [] then '\0' else extra[0])
    case Trailor => TrailerTag(Truncate(extra, TagLength))
    case Storage => StorageNumber(Atoi(extra))
    case NoPlace => Nowhere
  }

  /** The boat the scanned fields describe, built as `ReadBoatsFromFile` builds it. */
  function FieldsBoat(f: Fields): Boat
  {
    Boat(f.name, f.length, LoadLocation(StringToPlaceType(f.placeText), f.extra), f.amount)
  }

  /**
    The boat `ReadBoatsFromFile` makes of one line; nothing is rejected. Its
    place is the one the third field names, and its name fits `name[128]`
    with no comma.
   */
  function LoadBoat(line: string): (b: Boat)
    ensures b.Place() == StringToPlaceType(ScanLine(line).placeText)
    ensures |b.name| <= NameWidth && FieldText(b.name)
  {
    FieldsBoat(ScanLine(line))
  }

  /** Why `AddBoat` refuses a line. */
  datatype AddError = InventoryFull | InvalidFormat | InvalidBayLetter | InvalidPlace

  /** The format test of `AddBoat`: five fields converted, a name, a positive length, nothing negative owed. */
  predicate FormatOk(f: Fields) {
    f.count == 5 && |f.name| > 0 && f.length > 0 && f.amount >= 0
  }

  /** The test `AddBoat` applies to the extra field of a `land` boat: a single letter. */
  predicate BayLetterOk(extra: string) {
    |extra| == 1 && IsAlpha(extra[0])
  }

  /** The place test of `AddBoat`: a recognised place, and a bay letter for `land`. */
  predicate PlaceOk(p: Place, extra: string) {
    p != NoPlace && (p == Land ==> BayLetterOk(extra))
  }

  /**
    The validation `AddBoat` applies to the scanned fields before it
    appends: the format test first, then the place test. An accepted line
    gives the boat the load would make of the same fields.
   */
  function CheckFields(f: Fields): (r: Result<Boat, AddError>)
    requires Scanned(f)
    ensures r == Failure(InvalidFormat) <==> !FormatOk(f)
    ensures r == Failure(InvalidBayLetter) <==>
      FormatOk(f) && StringToPlaceType(f.placeText) == Land && !BayLetterOk(f.extra)
    ensures r == Failure(InvalidPlace) <==> FormatOk(f) && StringToPlaceType(f.placeText) == NoPlace
    ensures r.Success? <==> FormatOk(f) && PlaceOk(StringToPlaceType(f.placeText), f.extra)
    ensures r.Success? ==> r.value == FieldsBoat(f) && Acceptable(r.value)
  {
    if f.count != 5 || |f.name| == 0 || f.length <= 0 || f.amount < 0 then Failure(InvalidFormat)
    else CheckPlace(f, StringToPlaceType(f.placeText))
  }

  /** The second half of `CheckFields`: the place `p` and, for `land`, the bay letter. */
  function CheckPlace(f: Fields, p: Place): (r: Result<Boat, AddError>)
    requires Scanned(f) && FormatOk(f)
    ensures r == Failure(InvalidBayLetter) <==> p == Land && !BayLetterOk(f.extra)
    ensures r == Failure(InvalidPlace) <==> p == NoPlace
    ensures r.Success? <==> PlaceOk(p, f.extra)
    ensures r.Success? ==> r.value.Place() == p && Acceptable(r.value)
    ensures r.Success? ==> r.value.name == f.name && r.value.length == f.length && r.value.amountOwed == f.amount
  {
    if p == Land && !BayLetterOk(f.extra) then Failure(InvalidBayLetter)
    else if p == NoPlace then Failure(InvalidPlace)
    else
      var b := Boat(f.name, f.length, LoadLocation(p, f.extra), f.amount);
      assert Storable(b) by {
        if p == Trailor { assert Truncate(f.extra, TagLength) == f.extra; }
      }
      Success(b)
  }

  /**
    The boat `AddBoat` makes of a typed-in line, or why it refuses the
    line: the line is refused exactly when a test fails, and an accepted
    line gives the same boat as loading it from the file would.
   */
  function ParseNewBoat(csv: string): (r: Result<Boat, AddError>)
    ensures r == Failure(InvalidFormat) <==> !FormatOk(ScanLine(csv))
    ensures r.Success? <==> FormatOk(ScanLine(csv)) && PlaceOk(StringToPlaceType(ScanLine(csv).placeText), ScanLine(csv).extra)
    ensures r.Success? ==> r.value == LoadBoat(csv) && Acceptable(r.value)
  {
    CheckFields(ScanLine(csv))
  }

  // ------------------------------------------------------------ encoding

  /** The extra field `WriteBoatsToFile` prints for a location; empty for no place. */
  function ExtraText(loc: Location): string
  {
    match loc
    case SlipNumber(n) => IntToString(n)
    case BayLetter(c) => [c]
    case TrailerTag(t) => t
    case StorageNumber(n) => IntToString(n)
    case Nowhere => ""
  }

  /**
    `"%s,%d,%s,"`, the extra field, then `",%.2f"`: the record of one boat,
    followed by `end` (the newline in the file; nothing when the record is
    typed in for `AddBoat`).
   */
  function FormatBoat(b: Boat, end: string): (r: string)
  {
    b.name + ("," + (IntToString(b.length) + ("," + (PlaceToString(b.Place()) + ("," + (
      ExtraText(b.location) + ("," + (CentsToString(b.amountOwed) + end))))))))
  }

  /** The line `WriteBoatsToFile` writes for one boat: the record `AddBoat` reads, then a newline. */
  function SaveLine(b: Boat): (l: string)
    ensures l == FormatBoat(b, "") + "\n"
  {
    FormatBoatEnd(b, "\n");
    FormatBoat(b, "\n")
  }

  /** The record with its end marker is the record followed by that marker. */
  lemma FormatBoatEnd(b: Boat, end: string)
    ensures FormatBoat(b, end) == FormatBoat(b, "") + end
  {
  }

  /** A boat whose record reads back as itself: the format has room for each field and no field holds a comma or a NUL. */
  predicate Storable(b: Boat)
  {
    && 1 <= |b.name| <= NameWidth && FieldText(b.name)
    && match b.location
       case SlipNumber(n) => IsInt32(n)
       case BayLetter(c) => FieldChar(c)
       case TrailerTag(t) => 1 <= |t| <= TagLength && FieldText(t)
       case StorageNumber(n) => IsInt32(n)
       case Nowhere => false
  }

  /** A boat `AddBoat` would accept: storable, positive length, nothing negative owed, an alphabetic bay letter. */
  predicate Acceptable(b: Boat)
  {
    && Storable(b)
    && b.length > 0
    && b.amountOwed >= 0
    && (b.location.BayLetter? ==> IsAlpha(b.location.bayLetter))
  }

  // ------------------------------------------------------------ round trips

  /** A field of the right size with no comma and no NUL is scanned whole, up to the comma after it. */
  lemma ScanFieldOf(field: string, tail: string, width: nat)
    requires 1 <= |field| <= width && FieldText(field)
    requires tail != [] && tail[0] == ','
    ensures ScanField(field + tail, width) == Some((field, tail))
  {
    var s := field + tail;
    assert FieldRun(s, width) == |field|;
    assert s[..|field|] == field && s[|field|..] == tail;
  }

  /** The printed form of a 32-bit number fits the 15-character extra field and has no comma or NUL. */
  lemma IntTextFits(n: int)
    requires IsInt32(n)
    ensures 1 <= |IntToString(n)| <= FieldWidth && FieldText(IntToString(n))
  {
    Int32TextLength(n);
    var s := IntToString(n);
    var m := if n < 0 then -n else n;
    assert forall i :: 0 <= i < |NatToString(m)| ==> IsDigit(NatToString(m)[i]);
    forall i | 0 <= i < |s| ensures FieldChar(s[i]) {
      if n < 0 && i > 0 {
        assert s[i] == NatToString(m)[i - 1];
      }
    }
  }

  /** The extra field of a storable boat fits its 15 characters and has no comma or NUL. */
  lemma ExtraTextFits(b: Boat)
    requires Storable(b)
    ensures 1 <= |ExtraText(b.location)| <= FieldWidth && FieldText(ExtraText(b.location))
  {
    match b.location
    case SlipNumber(n) => IntTextFits(n);
    case StorageNumber(n) => IntTextFits(n);
    case BayLetter(c) =>
    case TrailerTag(t) =>
  }

  /** `sscanf` recovers every field of a storable boat's record. */
  lemma ScanFormatted(b: Boat, rest: string)
    requires Storable(b)
    requires rest == [] || !IsDigit(rest[0])
    ensures ScanLine(FormatBoat(b, rest))
         == Fields(5, b.name, b.length, PlaceToString(b.Place()), ExtraText(b.location), b.amountOwed)
  {
    var N, L, P, E, C := b.name, IntToString(b.length), PlaceToString(b.Place()), ExtraText(b.location), CentsToString(b.amountOwed);
    var t4 := "," + (C + rest);
    var t3 := "," + (E + t4);
    var t2 := "," + (P + t3);
    var t1 := "," + (L + t2);
    assert ScanField(N + t1, NameWidth) == Some((N, t1)) by {
      ScanFieldOf(N, t1, NameWidth);
    }
    assert CommaInt(t1) == Some((b.length, t2)) by {
      assert t1[1..] == L + t2;
      ScanIntOfIntToString(b.length, t2);
    }
    assert CommaField(t2) == Some((P, t3)) by {
      assert t2[1..] == P + t3;
      ScanFieldOf(P, t3, FieldWidth);
    }
    assert CommaField(t3) == Some((E, t4)) by {
      assert t3[1..] == E + t4;
      ExtraTextFits(b);
      ScanFieldOf(E, t4, FieldWidth);
    }
    assert CommaCents(t4) == Some((b.amountOwed, rest)) by {
      assert t4[1..] == C + rest;
      ScanCentsOfCentsToString(b.amountOwed, rest);
    }
  }

  /** The location read back from the extra field is the one written. */
  lemma LoadLocationOfExtra(b: Boat)
    requires Storable(b)
    ensures LoadLocation(b.Place(), ExtraText(b.location)) == b.location
  {
    match b.location
    case SlipNumber(n) => AtoiOfIntToString(n);
    case StorageNumber(n) => AtoiOfIntToString(n);
    case BayLetter(c) =>
    case TrailerTag(t) =>
  }

  /** Writing a storable boat's line and reading it back gives the same boat. */
  lemma LoadRoundTrip(b: Boat)
    requires Storable(b)
    ensures LoadBoat(SaveLine(b)) == b
  {
    ScanFormatted(b, "\n");
    PlaceRoundTrip(b.Place());
    LoadLocationOfExtra(b);
  }

  /** Any boat `AddBoat` accepts is accepted again from its own record, unchanged. */
  lemma AddRoundTrip(b: Boat)
    requires Acceptable(b)
    ensures ParseNewBoat(FormatBoat(b, "")) == Success(b)
  {
    var f := Fields(5, b.name, b.length, PlaceToString(b.Place()), ExtraText(b.location), b.amountOwed);
    assert ScanLine(FormatBoat(b, "")) == f by {
      ScanFormatted(b, "");
    }
    assert StringToPlaceType(f.placeText) == b.Place() by {
      PlaceRoundTrip(b.Place());
    }
    assert FieldsBoat(f) == b by {
      LoadLocationOfExtra(b);
    }
    assert FormatOk(f) && PlaceOk(b.Place(), f.extra);
  }

  /** `sscanf` returns 3 when the first three directives match and the fourth field is empty. */
  lemma ScanLineOfThree(line: string, name: string, r1: string, length: int, r2: string, place: string, r3: string)
    requires ScanField(line, NameWidth) == Some((name, r1))
    requires CommaInt(r1) == Some((length, r2))
    requires CommaField(r2) == Some((place, r3))
    requires CommaField(r3) == None
    ensures ScanLine(line) == Fields(3, name, length, place, "", 0)
  {
  }

  /** The scan of a no-place boat's line: name, length and place, then the empty extra field stops it. */
  lemma NoPlaceScan(b: Boat)
    requires 1 <= |b.name| <= NameWidth && FieldText(b.name)
    requires b.location == Nowhere
    ensures ScanLine(SaveLine(b)) == Fields(3, b.name, b.length, PlaceToString(NoPlace), "", 0)
  {
    var N, L, P, C := b.name, IntToString(b.length), PlaceToString(NoPlace), CentsToString(b.amountOwed);
    var t3 := "," + ("" + ("," + (C + "\n")));
    var t2 := "," + (P + t3);
    var t1 := "," + (L + t2);
    assert SaveLine(b) == N + t1;
    assert ScanField(N + t1, NameWidth) == Some((N, t1)) by {
      ScanFieldOf(N, t1, NameWidth);
    }
    assert CommaInt(t1) == Some((b.length, t2)) by {
      assert t1[1..] == L + t2;
      ScanIntOfIntToString(b.length, t2);
    }
    assert CommaField(t2) == Some((P, t3)) by {
      assert t2[1..] == P + t3;
      ScanFieldOf(P, t3, FieldWidth);
    }
    assert CommaField(t3) == None by {
      assert FieldRun(t3[1..], FieldWidth) == 0;
    }
    ScanLineOfThree(N + t1, N, t1, b.length, t2, P, t3);
  }

  /**
    A boat with no place is written with an empty extra field, which
    `%15[^,]` cannot match: reading the line back stops after the place,
    and the balance owed is lost.
   */
  lemma NoPlaceLosesAmount(b: Boat)
    requires 1 <= |b.name| <= NameWidth && FieldText(b.name)
    requires b.location == Nowhere
    ensures ScanLine(SaveLine(b)).count == 3
    ensures LoadBoat(SaveLine(b)) == b.(amountOwed := 0)
  {
    NoPlaceScan(b);
    PlaceRoundTrip(NoPlace);
  }

  /** A storable boat whose record also survives being cut into lines by `fgets`. */
  predicate FileSafe(b: Boat)
  {
    && Storable(b) && IsInt32(b.length)
    && -(Pow10(87) as int) < b.amountOwed < Pow10(87)
    && '\n' !in b.name && '\n' !in ExtraText(b.location)
  }

  /**
    The record of a storable boat fits the 255 characters `ReadBoatsFromFile`
    reads at a time, with its newline as its only line break, when its text
    fields hold no newline, its length is a C `int` and its balance has at
    most 85 digits before the point.
   */
  lemma SaveLineIsLine(b: Boat)
    requires FileSafe(b)
    ensures IsLine(SaveLine(b))
  {
    var body := FormatBoat(b, "");
    RecordFits(b);
    var l := SaveLine(b);
    assert l == body + "\n";
    forall i | 0 <= i < |l| - 1
      ensures l[i] != '\n'
    {
      assert l[i] == body[i];
    }
  }

  /** The record of a file-safe boat has at most 254 characters and no newline. */
  lemma RecordFits(b: Boat)
    requires FileSafe(b)
    ensures |FormatBoat(b, "")| <= 254 && '\n' !in FormatBoat(b, "")
  {
    var N, L, P, E, C := b.name, IntToString(b.length), PlaceToString(b.Place()), ExtraText(b.location), CentsToString(b.amountOwed);
    assert FormatBoat(b, "") == N + ("," + (L + ("," + (P + ("," + (E + ("," + (C + ""))))))));
    assert |FormatBoat(b, "")| <= 254 by {
      Int32TextLength(b.length);
      CentsTextLength(b.amountOwed, 85);
      ExtraTextFits(b);
    }
    assert '\n' !in FormatBoat(b, "") by {
      PrintedHasNoBreak(b.length, b.amountOwed);
      assert '\n' !in P;
    }
  }
}
