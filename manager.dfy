/**
  `BoatManager`: the fixed table of `MAX_BOATS` boat slots and the count of
  slots in use, with the operations of boatManagement.c that change them.
  Each method is tied to the function in `Inventory` that says what it does
  to the list `boats[0 .. boatCount)`; slots past the count hold nothing
  the program looks at.
 */
module Management {
  import opened Wrappers
  import opened Text
  import opened Boats
  import opened Codec
  import opened Inventory
  import opened FileLines

  class BoatManager {
    /** `Boat *boats[MAX_BOATS]`: the table itself never moves. */
    const boats: array<Boat>
    /** `int boatCount` */
    var boatCount: nat

    ghost predicate Valid()
      reads this
    {
      boats.Length == MaxBoats && boatCount <= MaxBoats
    }

    /** The boats in the inventory, in table order. */
    ghost function Contents(): seq<Boat>
      reads this, boats
      requires Valid()
    {
      boats[..boatCount]
    }

    /** `BoatManager manager = { .boatCount = 0 };` */
    constructor ()
      ensures Valid() && fresh(boats)
      ensures Contents() == []
    {
      boats := new Boat[MaxBoats](_ => Boat("", 0, Nowhere, 0));
      boatCount := 0;
    }

    /**
      `ReadBoatsFromFile`: `file` is the text of the file, or None when it
      cannot be opened, which leaves the inventory as it was. Each `fgets`
      result becomes a boat, until the text runs out or the table is full.
     */
    method ReadBoatsFromFile(file: Option<string>)
      requires Valid()
      modifies this, boats
      ensures Valid()
      ensures file.None? ==> Contents() == old(Contents())
      ensures file.Some? ==> Contents() == Loaded(old(Contents()), Lines(file.value))
    {
      if file.None? {
        return;
      }
      var rest := file.value;
      while rest != []
        invariant Valid()
        invariant Loaded(Contents(), Lines(rest)) == Loaded(old(Contents()), Lines(file.value))
        decreases |rest|
      {
        if boatCount >= MaxBoats {
          break;
        }
        var k := LineRun(rest, LineRoom);
        var line := rest[..k];
        assert Lines(rest) == [line] + Lines(rest[k..]);
        LoadedStep(Contents(), line, Lines(rest[k..]));
        Push(LoadBoat(line));
        rest := rest[k..];
      }
    }

    /** `manager->boats[manager->boatCount++] = b;` */
    method Push(b: Boat)
      requires Valid() && boatCount < MaxBoats
      modifies this, boats
      ensures Valid()
      ensures Contents() == old(Contents()) + [b]
    {
      boats[boatCount] := b;
      assert boats[..boatCount] == old(Contents());
      boatCount := boatCount + 1;
    }

    /**
      `WriteBoatsToFile`: the text written, one line per boat in table
      order, or None when the file cannot be opened for writing.
     */
    method WriteBoatsToFile(writable: bool) returns (file: Option<string>)
      requires Valid()
      ensures file == if writable then Some(FileText(SaveLines(Contents()))) else None
    {
      if !writable {
        return None;
      }
      var text := "";
      var i := 0;
      while i < boatCount
        invariant 0 <= i <= boatCount
        invariant text == FileText(SaveLines(boats[..i]))
      {
        assert SaveLines(boats[..i + 1]) == SaveLines(boats[..i]) + [SaveLine(boats[i])];
        FileTextAppend(SaveLines(boats[..i]), SaveLine(boats[i]));
        text := text + SaveLine(boats[i]);
        i := i + 1;
      }
      assert boats[..i] == Contents();
      return Some(text);
    }

    /**
      `AddBoat`: refuses when the table is full, otherwise appends the boat
      the line describes, or refuses the line for the reason given.
     */
    method AddBoat(csv: string) returns (r: Result<Boat, AddError>)
      requires Valid()
      modifies this, boats
      ensures Valid()
      ensures r == if old(boatCount) >= MaxBoats then Failure(InventoryFull) else ParseNewBoat(csv)
      ensures r.Success? ==> Contents() == old(Contents()) + [r.value]
      ensures r.Failure? ==> Contents() == old(Contents())
    {
      if boatCount >= MaxBoats {
        return Failure(InventoryFull);
      }
      r := ParseNewBoat(csv);
      if r.Success? {
        Push(r.value);
      }
    }

    /**
      The search loop `RemoveBoat` and the payment dialogue share: the slot
      of the first boat whose name matches ignoring case.
     */
    method Find(name: string) returns (r: Option<nat>)
      requires Valid()
      ensures r == FindBoat(Contents(), name)
    {
      var i := 0;
      while i < boatCount
        invariant 0 <= i <= boatCount
        invariant forall k :: 0 <= k < i ==> !NameMatches(boats[k], name)
      {
        if CaseCmp(boats[i].name, name) == 0 {
          FirstMatch(Contents(), name, i);
          return Some(i);
        }
        i := i + 1;
      }
      return None;
    }

    /**
      `RemoveBoat`: the first boat whose name matches ignoring case is
      taken out and the later boats shift down one slot.
     */
    method RemoveBoat(name: string) returns (removed: bool)
      requires Valid()
      modifies this, boats
      ensures Valid()
      ensures removed <==> exists k :: 0 <= k < |old(Contents())| && NameMatches(old(Contents())[k], name)
      ensures Contents() == Removed(old(Contents()), name)
    {
      var r := Find(name);
      match r
      case None =>
        return false;
      case Some(i) =>
        assert Removed(Contents(), name) == Contents()[..i] + Contents()[i + 1..];
        CloseGap(i);
        return true;
    }

    /** The shifting loop of `RemoveBoat`: slot `i` is overwritten and the count drops by one. */
    method CloseGap(i: nat)
      requires Valid() && i < boatCount
      modifies this, boats
      ensures Valid()
      ensures Contents() == old(Contents()[..i] + Contents()[i + 1..])
    {
      ghost var inv := Contents();
      var j := i;
      while j < boatCount - 1
        invariant Valid() && boatCount == |inv|
        invariant i <= j < boatCount
        invariant boats[..j] == inv[..i] + inv[i + 1..j + 1]
        invariant boats[j + 1..boatCount] == inv[j + 1..]
      {
        boats[j] := boats[j + 1];
        assert boats[..j + 1] == boats[..j] + [inv[j + 1]];
        assert inv[i + 1..j + 2] == inv[i + 1..j + 1] + [inv[j + 1]];
        j := j + 1;
      }
      boatCount := boatCount - 1;
      assert boats[..boatCount] == boats[..j];
    }

    /**
      The payment dialogue of the main menu: the first boat whose name
      matches pays `payment` cents off its balance, unless the payment is
      more than it owes.
     */
    method Pay(name: string, payment: int) returns (outcome: PayOutcome)
      requires Valid()
      modifies boats
      ensures Valid()
      ensures outcome == PaymentOutcome(old(Contents()), name, payment)
      ensures Contents() == AfterPayment(old(Contents()), name, payment)
    {
      var r := Find(name);
      match r
      case None =>
        outcome := NoSuchBoat;
      case Some(i) =>
        if payment > boats[i].amountOwed {
          outcome := Rejected(boats[i].amountOwed);
        } else {
          boats[i] := boats[i].(amountOwed := boats[i].amountOwed - payment);
          outcome := Accepted;
        }
    }

    /** `ApplyMonthlyCharges`: every boat is charged one month for its place and length. */
    method ApplyMonthlyCharges()
      requires Valid()
      modifies boats
      ensures Valid()
      ensures Contents() == Charged(old(Contents()))
    {
      var i := 0;
      while i < boatCount
        invariant 0 <= i <= boatCount
        invariant forall k :: 0 <= k < i ==> boats[k] == Charge(old(boats[k]))
        invariant forall k :: i <= k < boats.Length ==> boats[k] == old(boats[k])
      {
        boats[i] := Charge(boats[i]);
        i := i + 1;
      }
    }

    /**
      `SortInventory`: orders the boats by name, ignoring case, as `qsort`
      with `CompareBoats` does; boats whose names differ only in case may
      end up in either order. The sort here is a selection sort.
     */
    method SortInventory()
      requires Valid()
      modifies boats
      ensures Valid()
      ensures SortedByName(Contents())
      ensures multiset(Contents()) == multiset(old(Contents()))
    {
      var n := boatCount;
      var i := 0;
      while i < n
        invariant 0 <= i <= n
        invariant PlacedUpTo(boats[..], i, n)
        invariant multiset(boats[..]) == multiset(old(boats[..]))
        invariant boats[n..] == old(boats[n..])
      {
        var m := LeastFrom(i);
        SwapPlacesMinimum(boats[..], i, m, n);
        Swap(i, m);
        i := i + 1;
      }
      PlacedIsSorted(boats[..], n);
      PrefixMultiset(boats[..], old(boats[..]), n);
    }

    /** Exchanges two slots of the table. */
    method Swap(i: nat, m: nat)
      requires Valid() && i < boatCount && m < boatCount
      modifies boats
      ensures boats[..] == old(boats[..][i := boats[m]][m := boats[i]])
      ensures multiset(boats[..]) == multiset(old(boats[..]))
    {
      boats[i], boats[m] := boats[m], boats[i];
    }

    /** The slot, from `i` on, of a boat whose name comes no later than any other from `i` on. */
    method LeastFrom(i: nat) returns (m: nat)
      requires Valid() && i < boatCount
      ensures i <= m < boatCount
      ensures forall k :: i <= k < boatCount ==> CaseCmp(boats[m].name, boats[k].name) <= 0
    {
      m := i;
      var j := i + 1;
      while j < boatCount
        invariant i <= m < j <= boatCount
        invariant forall k :: i <= k < j ==> CaseCmp(boats[m].name, boats[k].name) <= 0
      {
        if CaseCmp(boats[j].name, boats[m].name) < 0 {
          forall k | i <= k < j
            ensures CaseCmp(boats[j].name, boats[k].name) <= 0
          {
            CaseCmpTransitive(boats[j].name, boats[m].name, boats[k].name);
          }
          m := j;
        } else {
          CaseCmpAntisymmetric(boats[j].name, boats[m].name);
        }
        j := j + 1;
      }
    }
  }
}
