/** Splitting an expense into exact shares and repaying them (reimbursement-store.js). */
module Reimbursement {
  import opened Options

  function Sum(s: seq<int>): int {
    if s == [] then 0 else Sum(s[..|s| - 1]) + s[|s| - 1]
  }

  // ===== Splitting =====

  datatype Mode = Equal | Percentage | Amount | Unsupported

  /** `value` is the number entered for the person: cents, or a percentage; `None` when it is
      not a finite number.  `emailIsValid` also holds when no email was given. */
  datatype Person = Person(named: bool, emailIsValid: bool, email: Option<string>, value: Option<real>)

  datatype Share = Share(isSelf: bool, cents: int, basisPoints: Option<int>)

  datatype Split = Shares(shares: seq<Share>) | Refused

  /** A whole, non-negative number of cents. */
  predicate WholeCents(v: Option<real>) {
    v.Some? && v.value >= 0.0 && v.value == v.value.Floor as real
  }

  predicate ValidPercent(v: Option<real>) {
    v.Some? && v.value >= 0.0
  }

  /** `Math.round(percent * 100)`. */
  function BasisPoints(v: Option<real>): (bp: int)
    requires ValidPercent(v)
    ensures bp >= 0
  {
    (v.value * 100.0 + 0.5).Floor
  }

  /** The nearest hundredth of a percent, halves upwards. */
  lemma BasisPointsAreNearest(v: Option<real>)
    requires ValidPercent(v)
    ensures BasisPoints(v) as real - 0.5 <= v.value * 100.0 < BasisPoints(v) as real + 0.5
  {
  }

  function CentsOf(v: Option<real>): (cents: int)
    requires WholeCents(v)
    ensures cents >= 0
  {
    v.value.Floor
  }

  function Subjects(includeSelf: bool, selfValue: Option<real>, people: seq<Person>): seq<Option<real>> {
    (if includeSelf then [selfValue] else []) + seq(|people|, i requires 0 <= i < |people| => people[i].value)
  }

  ghost predicate PeopleAreValid(people: seq<Person>) {
    && 1 <= |people| <= 25
    && (forall i :: 0 <= i < |people| ==> people[i].named && people[i].emailIsValid)
    && (forall i, j :: 0 <= i < j < |people| ==> people[i].email.None? || people[i].email != people[j].email)
  }

  function AllCents(values: seq<Option<real>>): seq<int>
    requires forall i :: 0 <= i < |values| ==> WholeCents(values[i])
  {
    seq(|values|, i requires 0 <= i < |values| => CentsOf(values[i]))
  }

  function AllBasisPoints(values: seq<Option<real>>): seq<nat>
    requires forall i :: 0 <= i < |values| ==> ValidPercent(values[i])
  {
    seq(|values|, i requires 0 <= i < |values| => BasisPoints(values[i]))
  }

  /** When the store splits instead of refusing. */
  ghost predicate Splittable(total: Option<real>, mode: Mode, people: seq<Person>, values: seq<Option<real>>) {
    && WholeCents(total) && CentsOf(total) > 0
    && PeopleAreValid(people)
    && match mode
       case Equal => true
       case Amount =>
         (forall i :: 0 <= i < |values| ==> WholeCents(values[i])) && Sum(AllCents(values)) == CentsOf(total)
       case Percentage =>
         (forall i :: 0 <= i < |values| ==> ValidPercent(values[i])) && Sum(AllBasisPoints(values)) == 10000
       case Unsupported => false
  }

  function Cents(shares: seq<Share>): seq<int> {
    seq(|shares|, i requires 0 <= i < |shares| => shares[i].cents)
  }

  lemma SumOfAppended(s: seq<int>, x: int)
    ensures Sum(s + [x]) == Sum(s) + x
  {
    assert (s + [x])[..|s|] == s;
  }

  lemma CentsOfAppended(shares: seq<Share>, share: Share)
    ensures Sum(Cents(shares + [share])) == Sum(Cents(shares)) + share.cents
  {
    assert Cents(shares + [share]) == Cents(shares) + [share.cents];
    SumOfAppended(Cents(shares), share.cents);
  }

  /** The promise of each mode about one share. */
  ghost predicate ShareIsFair(mode: Mode, total: nat, values: seq<Option<real>>, i: nat, cents: int)
    requires i < |values|
  {
    match mode
    case Equal => cents == EvenShare(total / |values|, total % |values|, i)
    case Amount => WholeCents(values[i]) && cents == CentsOf(values[i])
    case Percentage =>
      && ValidPercent(values[i])
      && if i < |values| - 1 then IsRoundedDown(total, BasisPoints(values[i]), cents)
         else TakesTheRest(total, BasisPoints(values[i]), cents, |values|)
    case Unsupported => false
  }

  /** The shares are fair, belong to the subjects in order, and add up to the total exactly. */
  ghost predicate IsFairSplit(mode: Mode, total: nat, includeSelf: bool, values: seq<Option<real>>, shares: seq<Share>) {
    && |shares| == |values|
    && Sum(Cents(shares)) == total
    && forall i :: 0 <= i < |values| ==>
         && shares[i].cents >= 0
         && shares[i].isSelf == (includeSelf && i == 0)
         && (mode != Percentage ==> shares[i].basisPoints == None)
         && (mode == Percentage ==> ValidPercent(values[i]) && shares[i].basisPoints == Some(BasisPoints(values[i])))
         && ShareIsFair(mode, total, values, i, shares[i].cents)
  }

  /** The share of `bp` basis points, rounded down to whole cents. */
  ghost predicate IsRoundedDown(total: nat, bp: nat, cents: int) {
    cents >= 0 && 0 <= total * bp - 10000 * cents < 10000
  }

  /** The last share is never below its exact value and at most n - 1 cents above it. */
  ghost predicate TakesTheRest(total: nat, bp: nat, cents: int, n: nat) {
    cents >= 0 && 0 <= 10000 * cents - total * bp <= 10000 * (n - 1)
  }

  function EvenShare(base: nat, extra: nat, i: nat): nat {
    base + (if i < extra then 1 else 0)
  }

  lemma {:induction false} EvenSharesAddUp(base: nat, extra: nat, cents: seq<int>)
    requires forall i :: 0 <= i < |cents| ==> cents[i] == EvenShare(base, extra, i)
    ensures Sum(cents) == base * |cents| + (if |cents| < extra then |cents| else extra)
  {
    if cents != [] {
      var n := |cents| - 1;
      EvenSharesAddUp(base, extra, cents[..n]);
      assert base * |cents| == base * n + base;
    }
  }

  lemma WholeAndRest(total: nat, n: nat)
    requires n > 0
    ensures total / n >= 0 && total / n * n + total % n == total && 0 <= total % n < n
  {
  }

  method SplitEqually(total: nat, includeSelf: bool, values: seq<Option<real>>) returns (split: Split)
    requires values != []
    ensures split.Shares? && IsFairSplit(Equal, total, includeSelf, values, split.shares)
  {
    var n := |values|;
    WholeAndRest(total, n);
    var base := total / n;
    var remainder := total - base * n;
    ghost var extra := remainder;
    var shares := [];
    for i := 0 to n
      invariant |shares| == i
      invariant remainder == extra - i
      invariant forall k :: 0 <= k < i ==> shares[k] == Share(includeSelf && k == 0, EvenShare(base, extra, k), None)
    {
      shares := shares + [Share(includeSelf && i == 0, base + (if remainder > 0 then 1 else 0), None)];
      remainder := remainder - 1;
    }
    EvenSharesAddUp(base, extra, Cents(shares));
    split := Shares(shares);
  }

  lemma PrefixSumStep(s: seq<int>, i: nat)
    requires i < |s|
    ensures Sum(s[..i + 1]) == Sum(s[..i]) + s[i]
  {
    assert s[..i + 1][..i] == s[..i];
  }

  function RoundedDown(total: nat, bp: nat): (cents: nat)
    ensures IsRoundedDown(total, bp, cents)
  {
    total * bp / 10000
  }

  /** One more share rounded down: the part not yet handed out grows by less than a cent. */
  lemma HandOut(total: nat, before: int, bp: nat, handedOut: int, i: nat, cents: int)
    requires 0 <= total * before - 10000 * handedOut <= 10000 * i
    requires IsRoundedDown(total, bp, cents)
    ensures 0 <= total * (before + bp) - 10000 * (handedOut + cents) <= 10000 * (i + 1)
  {
    assert total * (before + bp) == total * before + total * bp;
  }

  lemma HandOutTheRest(total: nat, before: int, bp: nat, handedOut: int, n: nat)
    requires n > 0 && before + bp == 10000
    requires 0 <= total * before - 10000 * handedOut <= 10000 * (n - 1)
    ensures TakesTheRest(total, bp, total - handedOut, n)
  {
    assert total * 10000 == total * before + total * bp;
    assert total * bp >= 0;
  }

  /** Percentages: every share but the last is rounded down, the last takes what is left. */
  method PercentageCents(total: nat, bps: seq<nat>) returns (cents: seq<int>)
    requires |bps| > 0 && Sum(bps) == 10000
    ensures |cents| == |bps| && Sum(cents) == total
    ensures forall i :: 0 <= i < |bps| - 1 ==> IsRoundedDown(total, bps[i], cents[i])
    ensures TakesTheRest(total, bps[|bps| - 1], cents[|bps| - 1], |bps|)
  {
    var last := |bps| - 1;
    var handedOut := 0;
    cents := [];
    for i := 0 to last
      invariant |cents| == i
      invariant handedOut == Sum(cents)
      invariant forall k :: 0 <= k < i ==> IsRoundedDown(total, bps[k], cents[k])
      invariant 0 <= total * Sum(bps[..i]) - 10000 * handedOut <= 10000 * i
    {
      var share := RoundedDown(total, bps[i]);
      PrefixSumStep(bps, i);
      HandOut(total, Sum(bps[..i]), bps[i], handedOut, i, share);
      SumOfAppended(cents, share);
      handedOut := handedOut + share;
      cents := cents + [share];
    }
    HandOutTheRest(total, Sum(bps[..last]), bps[last], handedOut, |bps|);
    SumOfAppended(cents, total - handedOut);
    cents := cents + [total - handedOut];
  }

  method SplitByAmount(total: nat, includeSelf: bool, values: seq<Option<real>>) returns (split: Split)
    ensures split.Shares? <==>
              (forall i :: 0 <= i < |values| ==> WholeCents(values[i])) && Sum(AllCents(values)) == total
    ensures split.Shares? ==> IsFairSplit(Amount, total, includeSelf, values, split.shares)
  {
    var shares, sum := [], 0;
    for i := 0 to |values|
      invariant |shares| == i
      invariant forall k :: 0 <= k < i ==>
                  WholeCents(values[k]) && shares[k] == Share(includeSelf && k == 0, CentsOf(values[k]), None)
      invariant sum == Sum(Cents(shares))
    {
      if !WholeCents(values[i]) {
        return Refused;
      }
      var share := Share(includeSelf && i == 0, CentsOf(values[i]), None);
      CentsOfAppended(shares, share);
      sum := sum + share.cents;
      shares := shares + [share];
    }
    assert Cents(shares) == AllCents(values);
    return if sum != total then Refused else Shares(shares);
  }

  method SplitByPercentage(total: nat, includeSelf: bool, values: seq<Option<real>>) returns (split: Split)
    requires values != []
    ensures split.Shares? <==>
              (forall i :: 0 <= i < |values| ==> ValidPercent(values[i])) && Sum(AllBasisPoints(values)) == 10000
    ensures split.Shares? ==> IsFairSplit(Percentage, total, includeSelf, values, split.shares)
  {
    for i := 0 to |values|
      invariant forall k :: 0 <= k < i ==> ValidPercent(values[k])
    {
      if !ValidPercent(values[i]) {
        return Refused;
      }
    }
    var bps := AllBasisPoints(values);
    if Sum(bps) != 10000 {
      return Refused;
    }
    var cents := PercentageCents(total, bps);
    var shares := seq(|cents|, i requires 0 <= i < |cents| => Share(includeSelf && i == 0, cents[i], Some(bps[i])));
    assert Cents(shares) == cents;
    split := Shares(shares);
  }

  method CheckPeople(people: seq<Person>) returns (ok: bool)
    ensures ok <==> PeopleAreValid(people)
  {
    if |people| > 25 {
      return false;
    }
    for i := 0 to |people|
      invariant forall k :: 0 <= k < i ==> people[k].named && people[k].emailIsValid
    {
      if !people[i].named || !people[i].emailIsValid {
        return false;
      }
    }
    if people == [] {
      return false;
    }
    var seenEmails := {};
    for i := 0 to |people|
      invariant forall e :: e in seenEmails <==> exists k :: 0 <= k < i && people[k].email == Some(e)
      invariant forall k, j :: 0 <= k < j < i ==> people[k].email.None? || people[k].email != people[j].email
    {
      if people[i].email.Some? {
        if people[i].email.value in seenEmails {
          return false;
        }
        seenEmails := seenEmails + {people[i].email.value};
      }
    }
    return true;
  }

  method SplitShares(totalCents: Option<real>, mode: Mode, includeSelf: bool, selfValue: Option<real>, people: seq<Person>)
    returns (split: Split)
    ensures split.Shares? <==> Splittable(totalCents, mode, people, Subjects(includeSelf, selfValue, people))
    ensures split.Shares? ==>
              IsFairSplit(mode, CentsOf(totalCents), includeSelf, Subjects(includeSelf, selfValue, people), split.shares)
  {
    if !WholeCents(totalCents) || CentsOf(totalCents) <= 0 || mode.Unsupported? {
      return Refused;
    }
    var peopleOk := CheckPeople(people);
    if !peopleOk {
      return Refused;
    }
    var total := CentsOf(totalCents);
    var values := Subjects(includeSelf, selfValue, people);
    match mode {
      case Equal => split := SplitEqually(total, includeSelf, values);
      case Amount => split := SplitByAmount(total, includeSelf, values);
      case Percentage => split := SplitByPercentage(total, includeSelf, values);
    }
  }

  // ===== Repaying =====

  datatype Direction = OwedToMe | IOwe

  datatype Participant = Participant(id: string, isSelf: bool, shareCents: nat, paidInFull: bool)

  datatype Payment = Payment(participantId: string, amountCents: int)

  /** One expense with its participants and the payments recorded so far. */
  datatype Book = Book(direction: Direction, participants: seq<Participant>, payments: seq<Payment>)

  /** A payment someone tries to record. */
  datatype Request = Request(participantId: string, amountCents: Option<real>, methodSupported: bool)

  datatype Receipt = Recorded(remainingCents: nat) | NoSuchParticipant | OwnShare | WrongAmount | WrongMethod

  function PaidBy(payments: seq<Payment>, id: string): int {
    if payments == [] then 0
    else
      var last := payments[|payments| - 1];
      PaidBy(payments[..|payments| - 1], id) + (if last.participantId == id then last.amountCents else 0)
  }

  predicate IsDue(direction: Direction, p: Participant) {
    !(direction.OwedToMe? && p.isSelf)
  }

  function IndexOf(participants: seq<Participant>, id: string): (k: nat)
    ensures k <= |participants|
    ensures k < |participants| ==> participants[k].id == id
    ensures forall j :: 0 <= j < k ==> participants[j].id != id
  {
    if participants == [] || participants[0].id == id then 0 else 1 + IndexOf(participants[1..], id)
  }

  function Max0(x: int): nat {
    if x > 0 then x else 0
  }

  /** What is still open on a share. */
  function Remaining(book: Book, k: nat): nat
    requires k < |book.participants|
  {
    Max0(book.participants[k].shareCents - PaidBy(book.payments, book.participants[k].id))
  }

  function Answer(book: Book, request: Request): Receipt {
    var k := IndexOf(book.participants, request.participantId);
    if k == |book.participants| then NoSuchParticipant
    else if !IsDue(book.direction, book.participants[k]) then OwnShare
    else if !WholeCents(request.amountCents) then WrongAmount
    else
      var amount := CentsOf(request.amountCents);
      if amount <= 0 || amount > Remaining(book, k) then WrongAmount
      else if !request.methodSupported then WrongMethod
      else Recorded(Remaining(book, k) - amount)
  }

  function Pay(book: Book, request: Request): Book {
    var answer := Answer(book, request);
    if !answer.Recorded? then book
    else
      var k := IndexOf(book.participants, request.participantId);
      var p := book.participants[k];
      book.(participants := book.participants[k := p.(paidInFull := p.paidInFull || answer.remainingCents == 0)],
            payments := book.payments + [Payment(p.id, CentsOf(request.amountCents))])
  }

  function PayAll(book: Book, requests: seq<Request>): Book
    decreases |requests|
  {
    if requests == [] then book else PayAll(Pay(book, requests[0]), requests[1..])
  }

  /** No share is overpaid, nobody repays a share that is not due, and the stamp for a fully
      paid share stands exactly on the shares whose payments add up to them. */
  ghost predicate Sound(book: Book) {
    && (forall i, j :: 0 <= i < j < |book.participants| ==> book.participants[i].id != book.participants[j].id)
    && forall k :: 0 <= k < |book.participants| ==> ParticipantIsSound(book, k)
  }

  ghost predicate ParticipantIsSound(book: Book, k: nat)
    requires k < |book.participants|
  {
    var p := book.participants[k];
    var paid := PaidBy(book.payments, p.id);
    && 0 <= paid <= p.shareCents
    && (paid > 0 ==> IsDue(book.direction, p))
    && (p.paidInFull <==> paid > 0 && paid == p.shareCents)
  }

  lemma PaymentCountsForOne(payments: seq<Payment>, payment: Payment, id: string)
    ensures PaidBy(payments + [payment], id)
         == PaidBy(payments, id) + (if payment.participantId == id then payment.amountCents else 0)
  {
    assert (payments + [payment])[..|payments|] == payments;
  }

  lemma PayingKeepsBookSound(book: Book, request: Request)
    requires Sound(book)
    ensures Sound(Pay(book, request))
    ensures Answer(book, request).Recorded? <==> Pay(book, request) != book
  {
    var after := Pay(book, request);
    var k := IndexOf(book.participants, request.participantId);
    if Answer(book, request).Recorded? {
      assert ParticipantIsSound(book, k);
      forall j | 0 <= j < |book.participants| ensures ParticipantIsSound(after, j) {
        PaymentCountsForOne(book.payments, after.payments[|book.payments|], book.participants[j].id);
        assert ParticipantIsSound(book, j);
      }
      assert |after.payments| > |book.payments|;
    }
  }

  /** A payment is recorded if and only if it is for a known share that is due, a whole number of
      cents above zero and no more than is open, by a supported method.  Then it is appended with
      its amount, the answer says what stays open, and exactly a share that is covered now is
      stamped; otherwise nothing changes. */
  lemma PaymentIsRecordedExactly(book: Book, request: Request)
    requires Sound(book)
    ensures var after, answer := Pay(book, request), Answer(book, request);
            && (answer.Recorded? <==> exists k :: IsPayable(book, request, k))
            && (!answer.Recorded? ==> after == book)
            && after.direction == book.direction && |after.participants| == |book.participants|
            && (forall k :: IsPayable(book, request, k) ==>
                  var p, open := book.participants[k], book.participants[k].shareCents - PaidBy(book.payments, request.participantId);
                  && after.payments == book.payments + [Payment(request.participantId, request.amountCents.value.Floor)]
                  && answer == Recorded(open - request.amountCents.value.Floor)
                  && (forall j :: 0 <= j < |book.participants| && j != k ==> after.participants[j] == book.participants[j])
                  && after.participants[k] == p.(paidInFull := open == request.amountCents.value.Floor))
  {
    var k := IndexOf(book.participants, request.participantId);
    if k < |book.participants| {
      assert ParticipantIsSound(book, k);
      if Answer(book, request).Recorded? {
        assert IsPayable(book, request, k);
      }
    }
    forall j | IsPayable(book, request, j) ensures j == k {
    }
  }

  /** The request pays on the k-th share. */
  predicate IsPayable(book: Book, request: Request, k: int) {
    && 0 <= k < |book.participants| && book.participants[k].id == request.participantId
    && (book.direction == IOwe || !book.participants[k].isSelf)
    && request.amountCents.Some? && request.amountCents.value == request.amountCents.value.Floor as real
    && 0.0 < request.amountCents.value
    && request.amountCents.value <= (book.participants[k].shareCents - PaidBy(book.payments, request.participantId)) as real
    && request.methodSupported
  }

  /** No run of attempted payments overpays a share. */
  lemma {:induction false} NoRunOverpays(book: Book, requests: seq<Request>)
    requires Sound(book)
    ensures Sound(PayAll(book, requests))
    ensures |PayAll(book, requests).participants| == |book.participants|
    ensures Due(PayAll(book, requests), |book.participants|) == Due(book, |book.participants|)
    decreases |requests|
  {
    if requests != [] {
      PayingKeepsBookSound(book, requests[0]);
      PayingChangesNoShare(book, requests[0], |book.participants|);
      NoRunOverpays(Pay(book, requests[0]), requests[1..]);
    }
  }

  // ----- Totals over the first n participants -----

  function Due(book: Book, n: nat): int
    requires n <= |book.participants|
  {
    if n == 0 then 0
    else Due(book, n - 1) + (if IsDue(book.direction, book.participants[n - 1]) then book.participants[n - 1].shareCents else 0)
  }

  function Paid(book: Book, n: nat): int
    requires n <= |book.participants|
  {
    if n == 0 then 0
    else
      Paid(book, n - 1)
      + (if IsDue(book.direction, book.participants[n - 1]) then PaidBy(book.payments, book.participants[n - 1].id) else 0)
  }

  function Outstanding(book: Book, n: nat): nat
    requires n <= |book.participants|
  {
    if n == 0 then 0
    else Outstanding(book, n - 1) + (if IsDue(book.direction, book.participants[n - 1]) then Remaining(book, n - 1) else 0)
  }

  lemma {:induction false} PayingChangesNoShare(book: Book, request: Request, n: nat)
    requires n <= |book.participants|
    ensures |Pay(book, request).participants| == |book.participants|
    ensures Due(Pay(book, request), n) == Due(book, n)
  {
    if n > 0 {
      PayingChangesNoShare(book, request, n - 1);
    }
  }

  /** What is due is what was paid plus what is outstanding; the expense is settled exactly
      when every due share is paid. */
  lemma {:induction false} DueIsPaidPlusOutstanding(book: Book, n: nat)
    requires Sound(book) && n <= |book.participants|
    ensures Due(book, n) == Paid(book, n) + Outstanding(book, n)
    ensures Outstanding(book, n) == 0 <==>
              forall k :: 0 <= k < n && IsDue(book.direction, book.participants[k]) ==>
                PaidBy(book.payments, book.participants[k].id) == book.participants[k].shareCents
  {
    if n > 0 {
      DueIsPaidPlusOutstanding(book, n - 1);
      assert ParticipantIsSound(book, n - 1);
    }
  }

  datatype Status = Settled | Partial | Open

  datatype Totals = Totals(dueCents: int, paidCents: int, outstandingCents: int, status: Status)

  /** The reimbursement row with its participants and payments. */
  class Expense {
    const direction: Direction
    var participants: seq<Participant>
    var payments: seq<Payment>

    ghost function View(): Book
      reads this
    {
      Book(direction, participants, payments)
    }

    constructor (direction: Direction, participants: seq<Participant>)
      requires forall i, j :: 0 <= i < j < |participants| ==> participants[i].id != participants[j].id
      requires forall k :: 0 <= k < |participants| ==> !participants[k].paidInFull
      ensures View() == Book(direction, participants, []) && Sound(View())
    {
      this.direction, this.participants, this.payments := direction, participants, [];
      new;
      assert forall k :: 0 <= k < |participants| ==> ParticipantIsSound(View(), k);
    }

    method InsertPayment(request: Request) returns (receipt: Receipt)
      requires Sound(View())
      modifies this
      ensures receipt == Answer(old(View()), request)
      ensures View() == Pay(old(View()), request) && Sound(View())
    {
      PayingKeepsBookSound(View(), request);
      var k := IndexOf(participants, request.participantId);
      if k == |participants| {
        return NoSuchParticipant;
      }
      if direction.OwedToMe? && participants[k].isSelf {
        return OwnShare;
      }
      var paid := 0;
      for n := 0 to |payments|
        invariant paid == PaidBy(payments[..n], participants[k].id)
      {
        assert payments[..n + 1][..n] == payments[..n];
        if payments[n].participantId == participants[k].id {
          paid := paid + payments[n].amountCents;
        }
      }
      assert payments[..|payments|] == payments;
      var remaining := Max0(participants[k].shareCents - paid);
      if !WholeCents(request.amountCents) || CentsOf(request.amountCents) <= 0 || CentsOf(request.amountCents) > remaining {
        return WrongAmount;
      }
      if !request.methodSupported {
        return WrongMethod;
      }
      var amountCents := CentsOf(request.amountCents);
      payments := payments + [Payment(participants[k].id, amountCents)];
      if amountCents == remaining {
        participants := participants[k := participants[k].(paidInFull := true)];
      }
      return Recorded(remaining - amountCents);
    }

    method TotalsFor() returns (totals: Totals)
      requires Sound(View())
      ensures totals.dueCents == totals.paidCents + totals.outstandingCents
      ensures totals.dueCents == Due(View(), |participants|) && totals.paidCents == Paid(View(), |participants|)
      ensures totals.status.Settled? <==>
                forall k :: 0 <= k < |participants| && IsDue(direction, participants[k]) ==>
                  PaidBy(payments, participants[k].id) == participants[k].shareCents
      ensures totals.status.Partial? <==> 0 < totals.paidCents < totals.dueCents
    {
      var paidByParticipant: map<string, int> := map[];
      for n := 0 to |payments|
        invariant forall id :: PaidBy(payments[..n], id) == if id in paidByParticipant then paidByParticipant[id] else 0
      {
        var p := payments[n];
        assert payments[..n + 1][..n] == payments[..n];
        var before := if p.participantId in paidByParticipant then paidByParticipant[p.participantId] else 0;
        paidByParticipant := paidByParticipant[p.participantId := before + p.amountCents];
      }
      assert payments[..|payments|] == payments;
      var due, paid, outstanding := 0, 0, 0;
      for k := 0 to |participants|
        invariant due == Due(View(), k) && paid == Paid(View(), k) && outstanding == Outstanding(View(), k)
      {
        var person := participants[k];
        if IsDue(direction, person) {
          var paidCents := if person.id in paidByParticipant then paidByParticipant[person.id] else 0;
          due := due + person.shareCents;
          paid := paid + paidCents;
          outstanding := outstanding + Max0(person.shareCents - paidCents);
        }
      }
      DueIsPaidPlusOutstanding(View(), |participants|);
      totals := Totals(due, paid, outstanding, if outstanding == 0 then Settled else if paid > 0 then Partial else Open);
    }
  }
}
