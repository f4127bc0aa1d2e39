/**
  The record model: where a boat is kept (`PlaceType` and the location
  union of boatManagement.c), the boat record itself, and the monthly
  storage charge. Money is held in whole cents.
 */
module Boats {
  import opened Text

  /** `PlaceType`; `NoPlace` stands for any place text that is not recognised. */
  datatype Place = Slip | Land | Trailor | Storage | NoPlace

  /** `PlaceToString`: the lower-case name the record format uses. */
  function PlaceToString(p: Place): (s: string)
    ensures 1 <= |s| <= 8 && ',' !in s && '\0' !in s
    ensures forall i :: 0 <= i < |s| ==> !IsUpper(s[i])
  {
    match p
    case Slip => "slip"
    case Land => "land"
    case Trailor => "trailor"
    case Storage => "storage"
    case NoPlace => "no_place"
  }

  /** Every place name is already in lower case. */
  lemma PlaceNamesAreLower(p: Place)
    ensures Lower(PlaceToString(p)) == PlaceToString(p)
  {
    LowerOfLowercase(PlaceToString(p));
  }

  /**
    `StringToPlaceType`: compares the text, ignoring case, with the four
    place names in turn; anything else is `NoPlace`.
   */
  function StringToPlaceType(s: string): (p: Place)
    ensures p != NoPlace ==> Lower(s) == PlaceToString(p)
  {
    if CaseCmp(s, "slip") == 0 then PlaceNamesAreLower(Slip); Slip
    else if CaseCmp(s, "land") == 0 then PlaceNamesAreLower(Land); Land
    else if CaseCmp(s, "trailor") == 0 then PlaceNamesAreLower(Trailor); Trailor
    else if CaseCmp(s, "storage") == 0 then PlaceNamesAreLower(Storage); Storage
    else NoPlace
  }

  /** A text names a real place exactly when it equals that place's name up to case. */
  lemma PlaceOfText(s: string, q: Place)
    requires q != NoPlace
    ensures StringToPlaceType(s) == q <==> Lower(s) == PlaceToString(q)
  {
    if Lower(s) == PlaceToString(q) {
      PlaceNamesAreLower(Slip);
      PlaceNamesAreLower(Land);
      PlaceNamesAreLower(Trailor);
      PlaceNamesAreLower(Storage);
    }
  }

  /** The name of every place, `no_place` included, converts back to that place. */
  lemma PlaceRoundTrip(p: Place)
    ensures StringToPlaceType(PlaceToString(p)) == p
  {
  }

  /** The conversion ignores case: texts equal up to case give the same place. */
  lemma PlaceIgnoresCase(s: string, t: string)
    requires Lower(s) == Lower(t)
    ensures StringToPlaceType(s) == StringToPlaceType(t)
  {
  }

  /**
    The `location` union, with the variant fixed by the place: a slip
    number, a bay letter, a trailer tag, a storage number, or nothing.
   */
  datatype Location =
    | SlipNumber(slipNumber: int)
    | BayLetter(bayLetter: char)
    | TrailerTag(trailerTag: string)
    | StorageNumber(storageNumber: int)
    | Nowhere

  function PlaceOf(loc: Location): Place
  {
    match loc
    case SlipNumber(_) => Slip
    case BayLetter(_) => Land
    case TrailerTag(_) => Trailor
    case StorageNumber(_) => Storage
    case Nowhere => NoPlace
  }

  /** One inventory entry; `amountOwed` is in cents. */
  datatype Boat = Boat(name: string, length: int, location: Location, amountOwed: int)
  {
    function Place(): Place
    {
      PlaceOf(location)
    }
  }

  /**
    The monthly charge per foot of length, in cents: $12.50, $14.00, $25.00
    and $11.20; a boat with no place is not charged.
   */
  function RatePerFoot(p: Place): (rate: nat)
    ensures rate > 0 <==> p != NoPlace
    ensures 1120 <= rate <= 2500 || rate == 0
  {
    match p
    case Slip => 1250
    case Land => 1400
    case Trailor => 2500
    case Storage => 1120
    case NoPlace => 0
  }

  /** The charge `ApplyMonthlyCharges` adds to one boat's balance: its length times its place's rate. */
  function MonthlyCharge(b: Boat): (c: int)
    ensures b.length >= 0 ==> c >= 0
    ensures b.length > 0 && b.Place() != NoPlace ==> c >= 1120 * b.length
    ensures b.Place() == NoPlace ==> c == 0
  {
    b.length * RatePerFoot(b.Place())
  }

  /** The boat after one month's charge: only the balance changes. */
  function Charge(b: Boat): (r: Boat)
    ensures r.name == b.name && r.length == b.length && r.location == b.location
    ensures r.amountOwed - b.amountOwed == MonthlyCharge(b)
  {
    b.(amountOwed := b.amountOwed + MonthlyCharge(b))
  }

  /** Charging twice adds two months' charge; a boat with no place is never charged. */
  lemma ChargeTwice(b: Boat)
    ensures Charge(Charge(b)).amountOwed == b.amountOwed + 2 * MonthlyCharge(b)
    ensures b.Place() == NoPlace ==> Charge(b) == b
  {
  }

  /** A boat of non-negative length never owes less after a charge. */
  lemma ChargeNeverLowersBalance(b: Boat)
    requires b.length >= 0
    ensures Charge(b).amountOwed >= b.amountOwed
  {
  }
}
