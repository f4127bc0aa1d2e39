/**
  What the `BoatManager` operations of boatManagement.c do to the list of
  boats, stated as functions on the sequence `boats[0 .. boatCount)`, and
  the properties of those functions: the capped load, the first-match
  search that `RemoveBoat` and the payment share, the monthly charges, the
  payment rule and the name order `SortInventory` establishes.
 */
module Inventory {
  import opened Wrappers
  import opened Text
  import opened Boats
  import opened Codec
  import opened FileLines

  /** `MAX_BOATS` */
  const MaxBoats: nat := 120

  /** `!strcasecmp(boat->name, name)`: the names are equal ignoring case. */
  function NameMatches(b: Boat, name: string): (m: bool)
    ensures m <==> Lower(b.name) == Lower(name)
  {
    CaseCmp(b.name, name) == 0
  }

  // ------------------------------------------------------------ search

  /** The index of the first boat whose name equals `name` up to case. */
  function FindBoat(inv: seq<Boat>, name: string): (r: Option<nat>)
    ensures r.Some? ==> r.value < |inv| && NameMatches(inv[r.value], name)
    ensures r.Some? ==> forall k :: 0 <= k < r.value ==> !NameMatches(inv[k], name)
    ensures r.None? ==> forall k :: 0 <= k < |inv| ==> !NameMatches(inv[k], name)
  {
    if inv == [] then None
    else if NameMatches(inv[0], name) then Some(0)
    else
      match FindBoat(inv[1..], name)
      case None => None
      case Some(i) => Some(i + 1)
  }

  /** How many boats have a name equal to `name` up to case. */
  function MatchCount(inv: seq<Boat>, name: string): nat
  {
    if inv == [] then 0 else (if NameMatches(inv[0], name) then 1 else 0) + MatchCount(inv[1..], name)
  }

  lemma {:induction false} MatchCountAppend(a: seq<Boat>, b: seq<Boat>, name: string)
    ensures MatchCount(a + b, name) == MatchCount(a, name) + MatchCount(b, name)
  {
    if a != [] {
      assert (a + b)[1..] == a[1..] + b;
      MatchCountAppend(a[1..], b, name);
    } else {
      assert a + b == b;
    }
  }

  // ------------------------------------------------------------ removal

  /** `RemoveBoat`: the first boat whose name matches is taken out; the rest close up in order. */
  function Removed(inv: seq<Boat>, name: string): (r: seq<Boat>)
    ensures (forall k :: 0 <= k < |inv| ==> !NameMatches(inv[k], name)) ==> r == inv
    ensures (exists k :: 0 <= k < |inv| && NameMatches(inv[k], name)) ==> |r| == |inv| - 1
    ensures forall b :: !NameMatches(b, name) ==> multiset(r)[b] == multiset(inv)[b]
  {
    match FindBoat(inv, name)
    case None => inv
    case Some(i) =>
      assert inv == inv[..i] + [inv[i]] + inv[i + 1..];
      inv[..i] + inv[i + 1..]
  }

  /** The first matching index is the one `FindBoat` returns. */
  lemma FirstMatch(inv: seq<Boat>, name: string, i: nat)
    requires i < |inv| && NameMatches(inv[i], name)
    requires forall k :: 0 <= k < i ==> !NameMatches(inv[k], name)
    ensures FindBoat(inv, name) == Some(i)
  {
  }

  /**
    Removing takes out exactly one of the boats that match, the first; the
    boats before it stay where they were and the boats after it move up by one.
   */
  lemma RemovedFirstMatch(inv: seq<Boat>, name: string, i: nat)
    requires i < |inv| && NameMatches(inv[i], name)
    requires forall k :: 0 <= k < i ==> !NameMatches(inv[k], name)
    ensures MatchCount(Removed(inv, name), name) == MatchCount(inv, name) - 1
    ensures multiset(Removed(inv, name)) == multiset(inv) - multiset{inv[i]}
    ensures Removed(inv, name)[..i] == inv[..i]
    ensures Removed(inv, name)[i..] == inv[i + 1..]
  {
    FirstMatch(inv, name, i);
    assert Removed(inv, name) == inv[..i] + inv[i + 1..];
    MatchCountDelete(inv, name, i);
    DeleteAt(inv, i);
  }

  /** Deleting position `i` keeps what is before it, moves up what is after it, and loses one copy of `s[i]`. */
  lemma DeleteAt<T>(s: seq<T>, i: nat)
    requires i < |s|
    ensures (s[..i] + s[i + 1..])[..i] == s[..i]
    ensures (s[..i] + s[i + 1..])[i..] == s[i + 1..]
    ensures multiset(s[..i] + s[i + 1..]) == multiset(s) - multiset{s[i]}
  {
    assert s == s[..i] + [s[i]] + s[i + 1..];
  }

  /** Deleting a matching boat lowers the match count by one. */
  lemma MatchCountDelete(inv: seq<Boat>, name: string, i: nat)
    requires i < |inv| && NameMatches(inv[i], name)
    ensures MatchCount(inv[..i] + inv[i + 1..], name) == MatchCount(inv, name) - 1
  {
    assert inv == inv[..i] + ([inv[i]] + inv[i + 1..]);
    MatchCountAppend(inv[..i], [inv[i]] + inv[i + 1..], name);
    MatchCountAppend([inv[i]], inv[i + 1..], name);
    MatchCountAppend(inv[..i], inv[i + 1..], name);
    assert MatchCount([inv[i]], name) == 1 by {
      assert [inv[i]][1..] == [];
    }
  }

  // ------------------------------------------------------------ loading and saving

  /** The boats made of `lines`, one per line, with nothing left out. */
  function LoadAll(lines: seq<string>): (r: seq<Boat>)
    ensures |r| == |lines|
  {
    if lines == [] then [] else [LoadBoat(lines[0])] + LoadAll(lines[1..])
  }

  /** The `k`-th boat is made of the `k`-th line. */
  lemma {:induction false} LoadAllAt(lines: seq<string>, k: nat)
    requires k < |lines|
    ensures LoadAll(lines)[k] == LoadBoat(lines[k])
  {
    if k > 0 {
      LoadAllAt(lines[1..], k - 1);
    }
  }

  /**
    The boats `more` appended one by one to `inv` while the list holds
    fewer than `MaxBoats` boats; once it is full the rest are dropped.
   */
  function Appended(inv: seq<Boat>, more: seq<Boat>): (r: seq<Boat>)
    ensures |inv| <= |r| <= |inv| + |more| && r[..|inv|] == inv
    ensures |inv| <= MaxBoats ==> |r| <= MaxBoats
    decreases |more|
  {
    if more == [] || |inv| >= MaxBoats then inv
    else Appended(inv + [more[0]], more[1..])
  }

  /** `ReadBoatsFromFile`, starting from `inv`: each line becomes a boat until the cap is reached. */
  function Loaded(inv: seq<Boat>, lines: seq<string>): (r: seq<Boat>)
    ensures |inv| <= |r| <= |inv| + |lines| && r[..|inv|] == inv
    ensures |inv| <= MaxBoats ==> |r| <= MaxBoats
  {
    Appended(inv, LoadAll(lines))
  }

  /** How many of `n` new boats fit after `count` boats. */
  function Room(count: nat, n: nat): (r: nat)
    ensures r <= n
    ensures count < MaxBoats ==> count + r <= MaxBoats
    ensures r < n ==> count + r >= MaxBoats
  {
    if count >= MaxBoats then 0 else if n <= MaxBoats - count then n else MaxBoats - count
  }

  /** Appending under the cap keeps the first boats that fit, in order, and drops the rest. */
  lemma {:induction false} AppendedIsCappedPrefix(inv: seq<Boat>, more: seq<Boat>)
    ensures Appended(inv, more) == inv + more[..Room(|inv|, |more|)]
    decreases |more|
  {
    if more == [] || |inv| >= MaxBoats {
      assert more[..Room(|inv|, |more|)] == [];
    } else {
      var head := inv + [more[0]];
      var m := Room(|head|, |more| - 1);
      assert Room(|inv|, |more|) == m + 1;
      AppendedIsCappedPrefix(head, more[1..]);
      assert more[1..][..m] == more[1..m + 1];
      assert more[..m + 1] == [more[0]] + more[1..m + 1];
    }
  }

  /**
    Loading appends the boats of the first lines, in file order, as many as
    fit under the cap, and ignores every line after that.
   */
  lemma LoadedIsCappedPrefix(inv: seq<Boat>, lines: seq<string>)
    ensures Loaded(inv, lines) == inv + LoadAll(lines)[..Room(|inv|, |lines|)]
  {
    AppendedIsCappedPrefix(inv, LoadAll(lines));
  }

  /** Loading never takes the inventory past the cap, and never shrinks it. */
  lemma LoadedSize(inv: seq<Boat>, lines: seq<string>)
    requires |inv| <= MaxBoats
    ensures |inv| <= |Loaded(inv, lines)| <= MaxBoats
    ensures |Loaded(inv, lines)| == MaxBoats || |Loaded(inv, lines)| == |inv| + |lines|
  {
    LoadedIsCappedPrefix(inv, lines);
  }

  /** `WriteBoatsToFile`: one line per boat, in inventory order. */
  function SaveLines(inv: seq<Boat>): (lines: seq<string>)
    ensures |lines| == |inv|
    ensures forall k :: 0 <= k < |inv| ==> lines[k] == SaveLine(inv[k])
  {
    seq(|inv|, k requires 0 <= k < |inv| => SaveLine(inv[k]))
  }

  /** Every line of a saved inventory of storable boats loads back as its boat. */
  lemma LoadAllOfSaveLines(inv: seq<Boat>)
    requires forall k :: 0 <= k < |inv| ==> Storable(inv[k])
    ensures LoadAll(SaveLines(inv)) == inv
  {
    forall k | 0 <= k < |inv|
      ensures LoadAll(SaveLines(inv))[k] == inv[k]
    {
      LoadAllAt(SaveLines(inv), k);
      LoadRoundTrip(inv[k]);
    }
  }

  /** Saving an inventory of storable boats and loading its lines into an empty manager gives it back. */
  lemma LoadSavedLines(inv: seq<Boat>)
    requires |inv| <= MaxBoats
    requires forall k :: 0 <= k < |inv| ==> Storable(inv[k])
    ensures Loaded([], SaveLines(inv)) == inv
  {
    calc {
      Loaded([], SaveLines(inv));
      Appended([], LoadAll(SaveLines(inv)));
      { LoadAllOfSaveLines(inv); }
      Appended([], inv);
      { AppendedIsCappedPrefix([], inv); }
      [] + inv[..Room(0, |inv|)];
      { assert inv[..Room(0, |inv|)] == inv; }
      inv;
    }
  }

  /**
    Writing the file and reading it back into an empty manager gives the
    same boats in the same order, when every record fits a line.
   */
  lemma SaveThenLoad(inv: seq<Boat>)
    requires |inv| <= MaxBoats
    requires forall k :: 0 <= k < |inv| ==> FileSafe(inv[k])
    ensures Loaded([], Lines(FileText(SaveLines(inv)))) == inv
  {
    var lines := SaveLines(inv);
    forall k | 0 <= k < |lines|
      ensures IsLine(lines[k])
    {
      SaveLineIsLine(inv[k]);
    }
    LinesOfFileText(lines);
    LoadSavedLines(inv);
  }

  /** One read of the loading loop: below the cap, the line's boat goes on the end. */
  lemma LoadedStep(inv: seq<Boat>, line: string, lines: seq<string>)
    requires |inv| < MaxBoats
    ensures Loaded(inv + [LoadBoat(line)], lines) == Loaded(inv, [line] + lines)
  {
  }

  // ------------------------------------------------------------ money

  /** The sum of the balances owed, in cents. */
  function TotalOwed(inv: seq<Boat>): int
  {
    if inv == [] then 0 else inv[0].amountOwed + TotalOwed(inv[1..])
  }

  /** The sum of one month's charges over the inventory, in cents. */
  function TotalCharge(inv: seq<Boat>): int
  {
    if inv == [] then 0 else MonthlyCharge(inv[0]) + TotalCharge(inv[1..])
  }

  /** Replacing one boat changes the total owed by the change in that boat's balance. */
  lemma {:induction false} TotalOwedUpdate(inv: seq<Boat>, i: nat, b: Boat)
    requires i < |inv|
    ensures TotalOwed(inv[i := b]) == TotalOwed(inv) - inv[i].amountOwed + b.amountOwed
  {
    if i > 0 {
      assert inv[i := b][1..] == inv[1..][i - 1 := b];
      TotalOwedUpdate(inv[1..], i - 1, b);
    }
  }

  /** `ApplyMonthlyCharges`: every boat is charged once for its place and length. */
  function Charged(inv: seq<Boat>): (r: seq<Boat>)
    ensures |r| == |inv|
    ensures forall k :: 0 <= k < |inv| ==>
      && r[k].name == inv[k].name && r[k].length == inv[k].length && r[k].location == inv[k].location
      && r[k].amountOwed == inv[k].amountOwed + inv[k].length * RatePerFoot(inv[k].Place())
  {
    seq(|inv|, k requires 0 <= k < |inv| => Charge(inv[k]))
  }

  /** Charging raises the total owed by exactly the month's charges. */
  lemma {:induction false} ChargedTotal(inv: seq<Boat>)
    ensures TotalOwed(Charged(inv)) == TotalOwed(inv) + TotalCharge(inv)
  {
    if inv != [] {
      assert Charged(inv)[1..] == Charged(inv[1..]);
      ChargedTotal(inv[1..]);
    }
  }

  /** Applying the charges twice charges every boat two months, and changes nothing but balances. */
  lemma ChargedTwice(inv: seq<Boat>)
    ensures |Charged(Charged(inv))| == |inv|
    ensures forall k :: 0 <= k < |inv| ==>
      && Charged(Charged(inv))[k].amountOwed == inv[k].amountOwed + 2 * MonthlyCharge(inv[k])
      && Charged(Charged(inv))[k] == inv[k].(amountOwed := Charged(Charged(inv))[k].amountOwed)
    ensures TotalOwed(Charged(Charged(inv))) == TotalOwed(inv) + 2 * TotalCharge(inv)
  {
    ChargedTotal(inv);
    ChargedTotal(Charged(inv));
    ChargedSameCharge(inv);
  }

  /** A charge does not change what the next month's charge will be. */
  lemma {:induction false} ChargedSameCharge(inv: seq<Boat>)
    ensures TotalCharge(Charged(inv)) == TotalCharge(inv)
  {
    if inv != [] {
      assert Charged(inv)[1..] == Charged(inv[1..]);
      ChargedSameCharge(inv[1..]);
    }
  }

  // ------------------------------------------------------------ payment

  /** What the payment dialogue answers. */
  datatype PayOutcome = Accepted | Rejected(owed: int) | NoSuchBoat

  /**
    The payment rule of the main menu: the first boat whose name matches
    takes the payment unless it is more than that boat owes.
   */
  function PaymentOutcome(inv: seq<Boat>, name: string, payment: int): (o: PayOutcome)
    ensures o == NoSuchBoat <==> forall k :: 0 <= k < |inv| ==> !NameMatches(inv[k], name)
    ensures o.Rejected? ==> FindBoat(inv, name).Some? && o.owed == inv[FindBoat(inv, name).value].amountOwed < payment
    ensures FindBoat(inv, name).Some? && payment > inv[FindBoat(inv, name).value].amountOwed ==> o.Rejected?
  {
    match FindBoat(inv, name)
    case None => NoSuchBoat
    case Some(i) => if payment > inv[i].amountOwed then Rejected(inv[i].amountOwed) else Accepted
  }

  /** The inventory after a payment: only the paying boat's balance changes, and only when accepted. */
  function AfterPayment(inv: seq<Boat>, name: string, payment: int): (r: seq<Boat>)
    ensures |r| == |inv|
    ensures PaymentOutcome(inv, name, payment) != Accepted ==> r == inv
  {
    match FindBoat(inv, name)
    case None => inv
    case Some(i) =>
      if payment > inv[i].amountOwed then inv
      else inv[i := inv[i].(amountOwed := inv[i].amountOwed - payment)]
  }

  /**
    An accepted payment is taken off the first matching boat's balance,
    which stays non-negative; every other boat is untouched, and the total
    owed falls by the payment.
   */
  lemma AcceptedPayment(inv: seq<Boat>, name: string, payment: int, i: nat)
    requires i < |inv| && NameMatches(inv[i], name)
    requires forall k :: 0 <= k < i ==> !NameMatches(inv[k], name)
    requires payment <= inv[i].amountOwed
    ensures PaymentOutcome(inv, name, payment) == Accepted
    ensures AfterPayment(inv, name, payment)[i] == inv[i].(amountOwed := inv[i].amountOwed - payment)
    ensures AfterPayment(inv, name, payment)[i].amountOwed >= 0
    ensures forall k :: 0 <= k < |inv| && k != i ==> AfterPayment(inv, name, payment)[k] == inv[k]
    ensures TotalOwed(AfterPayment(inv, name, payment)) == TotalOwed(inv) - payment
  {
    assert FindBoat(inv, name) == Some(i);
    TotalOwedUpdate(inv, i, inv[i].(amountOwed := inv[i].amountOwed - payment));
  }

  /**
    A payment above the first matching boat's balance is refused, the
    refusal reports that balance, and no boat changes.
   */
  lemma RejectedPayment(inv: seq<Boat>, name: string, payment: int, i: nat)
    requires i < |inv| && NameMatches(inv[i], name)
    requires forall k :: 0 <= k < i ==> !NameMatches(inv[k], name)
    requires payment > inv[i].amountOwed
    ensures PaymentOutcome(inv, name, payment) == Rejected(inv[i].amountOwed)
    ensures AfterPayment(inv, name, payment) == inv
  {
    FirstMatch(inv, name, i);
  }

  /** If nobody owes a negative amount before a payment, nobody does after it. */
  lemma PaymentKeepsBalancesNonNegative(inv: seq<Boat>, name: string, payment: int)
    requires forall k :: 0 <= k < |inv| ==> inv[k].amountOwed >= 0
    ensures forall k :: 0 <= k < |inv| ==> AfterPayment(inv, name, payment)[k].amountOwed >= 0
  {
  }

  // ------------------------------------------------------------ order

  /** `CompareBoats` never places a later boat before an earlier one. */
  predicate SortedByName(s: seq<Boat>)
  {
    forall i, j :: 0 <= i < j < |s| ==> CaseCmp(s[i].name, s[j].name) <= 0
  }

  /**
    The state of a selection sort of `s[..n]` after `i` rounds: each of the
    first `i` boats comes no later than any boat after it.
   */
  predicate PlacedUpTo(s: seq<Boat>, i: nat, n: nat)
    requires n <= |s|
  {
    forall p, q :: 0 <= p < i && p < q < n ==> CaseCmp(s[p].name, s[q].name) <= 0
  }

  /** Swapping the least remaining boat into slot `i` places one more boat. */
  lemma SwapPlacesMinimum(s: seq<Boat>, i: nat, m: nat, n: nat)
    requires i <= m < n <= |s|
    requires PlacedUpTo(s, i, n)
    requires forall k :: i <= k < n ==> CaseCmp(s[m].name, s[k].name) <= 0
    ensures PlacedUpTo(s[i := s[m]][m := s[i]], i + 1, n)
  {
  }

  /** Two sequences that are permutations of each other and agree from `n` on are permutations up to `n`. */
  lemma PrefixMultiset<T>(a: seq<T>, b: seq<T>, n: nat)
    requires n <= |a| && n <= |b|
    requires multiset(a) == multiset(b) && a[n..] == b[n..]
    ensures multiset(a[..n]) == multiset(b[..n])
  {
    assert a == a[..n] + a[n..];
    assert b == b[..n] + b[n..];
    assert multiset(a) == multiset(a[..n]) + multiset(a[n..]);
    assert multiset(b) == multiset(b[..n]) + multiset(a[n..]);
    forall x ensures multiset(a[..n])[x] == multiset(b[..n])[x] {
      assert multiset(a)[x] == multiset(b)[x];
    }
  }

  /** After `n` rounds, `s[..n]` is in name order. */
  lemma PlacedIsSorted(s: seq<Boat>, n: nat)
    requires n <= |s| && PlacedUpTo(s, n, n)
    ensures SortedByName(s[..n])
  {
  }
}
