/** The lock table of the controller in every run. */
module ControllerLocks {
  import opened ControllerModel

  /** A request that got past the checks its handler has already made; no backend, no exchange. */
  predicate Checked(w: World, k: Call) {
    && (Holds(k) ==> !Malformed(k.req))
    && (Holds(k) && !w.client ==> k.pc.Leaving?)
    && (Holds(k) && !k.pc.Leaving? && k.req.CreateVolume? ==> ChosenSize(k.req.range).Some?)
  }

  /** Nothing is under way without a backend, or in a world without late writes. */
  predicate OnTime(w: World, s: State) {
    !w.client || !w.lateWrites ==> s.underway == []
  }

  ghost predicate LockInv(w: World, s: State) {
    && OnTime(w, s)
    && (forall c | c in s.calls :: Checked(w, s.calls[c]))
    && (forall c | c in s.calls && Holds(s.calls[c]) :: Key(s.calls[c].req) in s.locks)
    && (forall key | key in s.locks :: SomeHolder(s, key))
    && (forall c, d | c in s.calls && d in s.calls && Holds(s.calls[c]) && Holds(s.calls[d])
          && Key(s.calls[c].req) == Key(s.calls[d].req) :: c == d)
  }

  /** Call c moves on within its critical section. */
  predicate Moves(w: World, s: State, s': State, c: nat) {
    && s'.locks == s.locks && OnTime(w, s')
    && c in s.calls && Holds(s.calls[c])
    && c in s'.calls && Holds(s'.calls[c]) && Checked(w, s'.calls[c])
    && s'.calls == s.calls[c := s'.calls[c]] && s'.calls[c].req == s.calls[c].req
  }

  lemma ExchangeMoves(w: World, s: State, s': State, c: nat, r: Reply)
    requires LockInv(w, s) && Exchanges(w, s, s', c, r)
    ensures Moves(w, s, s', c)
  {
    var k := s.calls[c];
    assert Checked(w, k);
    StaysInside(k.req, k.pc, r);
  }

  /** A reply never takes a handler out of its critical section. */
  lemma StaysInside(req: Request, pc: Pc, r: Reply)
    requires !Malformed(req) && Answers(req, pc, r) && (req.CreateVolume? ==> ChosenSize(req.range).Some?)
    ensures var next := AfterReply(req, pc, r); !next.Arrived? && !next.Returned?
  {
  }

  ghost predicate SomeHolder(s: State, key: string) {
    exists c | c in s.calls :: Holds(s.calls[c]) && Key(s.calls[c].req) == key
  }

  lemma MoveKeepsLocks(w: World, s: State, s': State, c: nat)
    requires LockInv(w, s) && Moves(w, s, s', c)
    ensures LockInv(w, s')
  {
    forall key | key in s'.locks ensures SomeHolder(s', key) {
      var d :| d in s.calls && Holds(s.calls[d]) && Key(s.calls[d].req) == key;
      assert d in s'.calls && Holds(s'.calls[d]) && Key(s'.calls[d].req) == key;
    }
  }

  lemma ArriveKeepsLocks(w: World, s: State, s': State, c: nat, req: Request)
    requires LockInv(w, s) && Arrives(s, s', c, req)
    ensures LockInv(w, s')
  {
    forall key | key in s'.locks ensures SomeHolder(s', key) {
      var d :| d in s.calls && Holds(s.calls[d]) && Key(s.calls[d].req) == key;
      assert d in s'.calls && Holds(s'.calls[d]) && Key(s'.calls[d].req) == key;
    }
  }

  lemma EnterKeepsLocks(w: World, s: State, s': State, c: nat)
    requires LockInv(w, s) && Enters(w, s, s', c)
    ensures LockInv(w, s')
  {
    forall key | key in s'.locks ensures SomeHolder(s', key) {
      if key in s.locks {
        var d :| d in s.calls && Holds(s.calls[d]) && Key(s.calls[d].req) == key;
        assert d in s'.calls && Holds(s'.calls[d]) && Key(s'.calls[d].req) == key;
      } else {
        assert Holds(s'.calls[c]) && Key(s'.calls[c].req) == key;
      }
    }
  }

  lemma ReturnKeepsLocks(w: World, s: State, s': State, c: nat)
    requires LockInv(w, s) && Returns(s, s', c)
    ensures LockInv(w, s')
  {
    forall key | key in s'.locks ensures SomeHolder(s', key) {
      var d :| d in s.calls && Holds(s.calls[d]) && Key(s.calls[d].req) == key;
      assert d in s'.calls && Holds(s'.calls[d]) && Key(s'.calls[d].req) == key;
    }
  }

  lemma StepKeepsLocks(w: World, s: State, s': State, c: nat, e: Event)
    requires LockInv(w, s) && StepBy(w, s, s', c, e)
    ensures LockInv(w, s')
  {
    match e
    case Arrive(req) => ArriveKeepsLocks(w, s, s', c, req);
    case Enter => EnterKeepsLocks(w, s, s', c);
    case Exchange(r) =>
      ExchangeMoves(w, s, s', c, r);
      MoveKeepsLocks(w, s, s', c);
    case Return => ReturnKeepsLocks(w, s, s', c);
    case Land(_) => LandKeepsLocks(w, s, s');
  }

  lemma LandKeepsLocks(w: World, s: State, s': State)
    requires LockInv(w, s) && OnTime(w, s') && s'.locks == s.locks && s'.calls == s.calls
    ensures LockInv(w, s')
  {
    forall key | key in s'.locks ensures SomeHolder(s', key) {
      assert SomeHolder(s, key);
    }
  }

  lemma {:induction false} LocksInRun(w: World, run: seq<State>, i: nat)
    requires IsRun(w, run) && i < |run|
    ensures LockInv(w, run[i])
  {
    if i > 0 {
      LocksInRun(w, run, i - 1);
      assert StepAt(w, run, i);
      var c: nat, e :| StepBy(w, run[i - 1], run[i], c, e);
      StepKeepsLocks(w, run[i - 1], run[i], c, e);
    }
  }

  ghost function HeldKeys(s: State): set<string> {
    set c | c in s.calls && Holds(s.calls[c]) :: Key(s.calls[c].req)
  }

  /**
   In every state of every run the lock table is exactly the set of keys of the calls in flight, no
   two calls hold one key, and nothing stays locked once all calls have returned.
   */
  lemma LockTableIsHeldKeys(w: World, run: seq<State>, i: nat)
    requires IsRun(w, run) && i < |run|
    ensures run[i].locks == HeldKeys(run[i])
    ensures forall c, d | c in run[i].calls && d in run[i].calls && c != d
      && Holds(run[i].calls[c]) && Holds(run[i].calls[d]) :: Key(run[i].calls[c].req) != Key(run[i].calls[d].req)
    ensures (forall c | c in run[i].calls :: run[i].calls[c].pc.Returned?) ==> run[i].locks == {}
  {
    LocksInRun(w, run, i);
  }
}
