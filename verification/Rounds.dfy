// The shape both handshakes in tunnel/setup.go share: up to limit rounds, each of one send and at
// most five reads, cut short by a decisive reply. Play is that shape as a fold over the verdicts
// on the events in the order the network delivers them.
module Rounds {
  import opened Events

  datatype Verdict<+R> = Skip | EndRound | Decide(result: R)

  datatype End<+R> = Decided(result: R) | SendFailed | Exhausted

  datatype Exchange<+R> = Exchange(end: End<R>, sent: nat, used: nat)

  const SLOTS := 5

  function Play<R>(limit: nat, sends: seq<bool>, vs: seq<Verdict<R>>, round: nat, slot: nat, used: nat)
    : (x: Exchange<R>)
    requires round <= limit && slot < SLOTS && used <= SLOTS * round + slot && |vs| == SLOTS * limit
    decreases limit - round, SLOTS - slot
  {
    if round == limit then Exchange(Exhausted, round, used)
    else if slot == 0 && !SendOk(sends, round) then Exchange(SendFailed, round + 1, used)
    else
      match vs[used]
      case Decide(r) => Exchange(Decided(r), round + 1, used + 1)
      case EndRound => Play(limit, sends, vs, round + 1, 0, used + 1)
      case Skip =>
        if slot + 1 == SLOTS then Play(limit, sends, vs, round + 1, 0, used + 1)
        else Play(limit, sends, vs, round, slot + 1, used + 1)
  }

  // One read of the fold.
  lemma PlayRead<R>(limit: nat, sends: seq<bool>, vs: seq<Verdict<R>>, round: nat, slot: nat, used: nat)
    requires round < limit && slot < SLOTS && used <= SLOTS * round + slot && |vs| == SLOTS * limit
    requires slot == 0 ==> SendOk(sends, round)
    ensures Play(limit, sends, vs, round, slot, used)
         == match vs[used]
            case Decide(r) => Exchange(Decided(r), round + 1, used + 1)
            case EndRound => Play(limit, sends, vs, round + 1, 0, used + 1)
            case Skip => if slot + 1 == SLOTS then Play(limit, sends, vs, round + 1, 0, used + 1)
                         else Play(limit, sends, vs, round, slot + 1, used + 1)
  {}

  // Its other two ends.
  lemma PlayStops<R>(limit: nat, sends: seq<bool>, vs: seq<Verdict<R>>, round: nat, used: nat)
    requires round <= limit && used <= SLOTS * round && |vs| == SLOTS * limit
    requires round < limit ==> !SendOk(sends, round)
    ensures Play(limit, sends, vs, round, 0, used)
         == if round == limit then Exchange(Exhausted, round, used) else Exchange(SendFailed, round + 1, used)
  {}

  // The round and slot reached after k verdicts: a round ends with its fifth read or early.
  function Reached<R>(vs: seq<Verdict<R>>, k: nat): (nat, nat)
    requires k <= |vs|
  {
    if k == 0 then (0, 0) else
      var (round, slot) := Reached(vs, k - 1);
      if vs[k - 1].EndRound? || slot + 1 == SLOTS then (round + 1, 0) else (round, slot + 1)
  }

  // Read number k happens: the budget is not used up and the send that opens its round succeeded.
  predicate Due<R>(limit: nat, sends: seq<bool>, vs: seq<Verdict<R>>, k: nat)
    requires k <= |vs|
  {
    var (round, slot) := Reached(vs, k);
    round < limit && (slot == 0 ==> SendOk(sends, round))
  }

  predicate Decisive<R>(vs: seq<Verdict<R>>, k: nat)
    requires k < |vs|
  {
    vs[k].Decide?
  }

  // The first used reads are due and none of them is decisive.
  predicate Undecided<R>(limit: nat, sends: seq<bool>, vs: seq<Verdict<R>>, used: nat) {
    used <= |vs| && forall k :: 0 <= k < used ==> Due(limit, sends, vs, k) && !Decisive(vs, k)
  }

  // The exchange by its first decisive event: all reads are due, none but the last is decisive,
  // and without a decisive one the budget is used up or the next send failed.
  predicate FirstDecisive<R(==)>(limit: nat, sends: seq<bool>, vs: seq<Verdict<R>>, x: Exchange<R>) {
    match x.end
    case Decided(r) =>
      && 0 < x.used <= |vs| && Undecided(limit, sends, vs, x.used - 1) && Due(limit, sends, vs, x.used - 1)
      && vs[x.used - 1] == Decide(r) && x.sent == Reached(vs, x.used - 1).0 + 1
    case SendFailed =>
      && Undecided(limit, sends, vs, x.used) && !Due(limit, sends, vs, x.used)
      && Reached(vs, x.used).0 < limit && x.sent == Reached(vs, x.used).0 + 1
    case Exhausted =>
      Undecided(limit, sends, vs, x.used) && Reached(vs, x.used).0 == limit == x.sent
  }

  lemma {:induction false} PlayFrom<R>(limit: nat, sends: seq<bool>, vs: seq<Verdict<R>>,
                                       round: nat, slot: nat, used: nat)
    requires round <= limit && slot < SLOTS && used <= SLOTS * round + slot && |vs| == SLOTS * limit
    requires Undecided(limit, sends, vs, used) && Reached(vs, used) == (round, slot)
    ensures FirstDecisive(limit, sends, vs, Play(limit, sends, vs, round, slot, used))
    decreases limit - round, SLOTS - slot
  {
    if round < limit && Due(limit, sends, vs, used) && !vs[used].Decide? {
      var (r, s) := Reached(vs, used + 1);
      PlayFrom(limit, sends, vs, r, s, used + 1);
    }
  }

  // The fold is exactly the exchange ended by the first decisive event.
  lemma PlayIsFirstDecisive<R>(limit: nat, sends: seq<bool>, vs: seq<Verdict<R>>, x: Exchange<R>)
    requires |vs| == SLOTS * limit
    ensures x == Play(limit, sends, vs, 0, 0, 0) <==> FirstDecisive(limit, sends, vs, x)
  {
    var y := Play(limit, sends, vs, 0, 0, 0);
    PlayFrom(limit, sends, vs, 0, 0, 0);
    if FirstDecisive(limit, sends, vs, x) {
      assert x.used == y.used by {
        Stops(limit, sends, vs, x, y);
        Stops(limit, sends, vs, y, x);
      }
    }
  }

  lemma Stops<R>(limit: nat, sends: seq<bool>, vs: seq<Verdict<R>>, x: Exchange<R>, y: Exchange<R>)
    requires FirstDecisive(limit, sends, vs, x) && FirstDecisive(limit, sends, vs, y)
    ensures x.used >= y.used
  {
    var atEnd := 0 < x.used <= |vs| && Decisive(vs, x.used - 1);
    var beyond := x.used <= |vs| && Due(limit, sends, vs, x.used);
    assert x.end.Decided? ==> atEnd;
    assert !x.end.Decided? ==> !beyond;
  }

  // At most one send a round and five reads.
  lemma {:induction false} Budget<R>(limit: nat, sends: seq<bool>, vs: seq<Verdict<R>>,
                                     round: nat, slot: nat, used: nat)
    requires round <= limit && slot < SLOTS && used <= SLOTS * round + slot && |vs| == SLOTS * limit
    requires round == limit ==> slot == 0
    ensures var x := Play(limit, sends, vs, round, slot, used);
            x.sent <= limit && x.used <= SLOTS * limit
    decreases limit - round, SLOTS - slot
  {
    if round < limit && (slot == 0 ==> SendOk(sends, round)) && !vs[used].Decide? {
      if vs[used].EndRound? || slot + 1 == SLOTS {
        Budget(limit, sends, vs, round + 1, 0, used + 1);
      } else {
        Budget(limit, sends, vs, round, slot + 1, used + 1);
      }
    }
  }
}
