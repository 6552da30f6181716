/** The lock table of the node in every run, and the keys it holds. */
module NodeLocks {
  import opened NodeModel

  /** What a handler has checked before it goes on: its arguments, and that it was given a device. */
  predicate Checked(k: Call) {
    && (Holds(k) ==> !Malformed(k.req))
    && (k.req.Stage? && Holds(k) && !k.pc.Leaving? ==> k.req.device != "")
  }

  ghost predicate LockInv(s: State) {
    && (forall c | c in s.calls :: Checked(s.calls[c]))
    && (forall c | c in s.calls && Holds(s.calls[c]) :: Key(s.calls[c].req) in s.locks)
    && (forall key | key in s.locks :: exists c | c in s.calls :: Holds(s.calls[c]) && Key(s.calls[c].req) == key)
    && (forall c, d | c in s.calls && d in s.calls && Holds(s.calls[c]) && Holds(s.calls[d])
          && Key(s.calls[c].req) == Key(s.calls[d].req) :: c == d)
  }

  /** Call c moves on within its critical section. */
  predicate Moves(s: State, s': State, c: nat) {
    && s'.locks == s.locks
    && c in s.calls && Holds(s.calls[c])
    && c in s'.calls && Holds(s'.calls[c]) && Checked(s'.calls[c])
    && s'.calls == s.calls[c := s'.calls[c]] && s'.calls[c].req == s.calls[c].req
  }

  lemma ActMoves(w: World, s: State, s': State, c: nat, o: Outcome)
    requires LockInv(s) && Acts(w, s, s', c, o)
    ensures Moves(s, s', c)
  {
    assert Checked(s.calls[c]);
  }

  lemma MoveKeepsLocks(s: State, s': State, c: nat)
    requires LockInv(s) && Moves(s, s', c)
    ensures LockInv(s')
  {
    forall key | key in s'.locks
      ensures exists d | d in s'.calls :: Holds(s'.calls[d]) && Key(s'.calls[d].req) == key
    {
      var d :| d in s.calls && Holds(s.calls[d]) && Key(s.calls[d].req) == key;
      assert d in s'.calls && Holds(s'.calls[d]) && Key(s'.calls[d].req) == key;
    }
  }

  lemma EnterKeepsLocks(s: State, s': State, c: nat)
    requires LockInv(s) && Enters(s, s', c)
    ensures LockInv(s')
  {
    forall key | key in s'.locks
      ensures exists d | d in s'.calls :: Holds(s'.calls[d]) && Key(s'.calls[d].req) == key
    {
      if key in s.locks {
        var d :| d in s.calls && Holds(s.calls[d]) && Key(s.calls[d].req) == key;
        assert d in s'.calls && Holds(s'.calls[d]) && Key(s'.calls[d].req) == key;
      } else {
        assert Holds(s'.calls[c]) && Key(s'.calls[c].req) == key;
      }
    }
  }

  lemma QuietKeepsLocks(s: State, s': State, c: nat, req: Request)
    requires LockInv(s) && s'.locks == s.locks && s'.calls == s.calls[c := Call(req, Arrived)] && c !in s.calls
    ensures LockInv(s')
  {
    forall key | key in s'.locks
      ensures exists d | d in s'.calls :: Holds(s'.calls[d]) && Key(s'.calls[d].req) == key
    {
      var d :| d in s.calls && Holds(s.calls[d]) && Key(s.calls[d].req) == key;
      assert d in s'.calls && Holds(s'.calls[d]) && Key(s'.calls[d].req) == key;
    }
  }

  lemma ReturnKeepsLocks(s: State, s': State, c: nat)
    requires LockInv(s) && Returns(s, s', c)
    ensures LockInv(s')
  {
    forall key | key in s'.locks
      ensures exists d | d in s'.calls :: Holds(s'.calls[d]) && Key(s'.calls[d].req) == key
    {
      var d :| d in s.calls && Holds(s.calls[d]) && Key(s.calls[d].req) == key;
      assert d in s'.calls && Holds(s'.calls[d]) && Key(s'.calls[d].req) == key;
    }
  }

  lemma StepKeepsLocks(w: World, s: State, s': State, c: nat, e: Event)
    requires LockInv(s) && StepBy(w, s, s', c, e)
    ensures LockInv(s')
  {
    match e
    case Arrive(req) => QuietKeepsLocks(s, s', c, req);
    case Enter => EnterKeepsLocks(s, s', c);
    case Act(o) =>
      ActMoves(w, s, s', c, o);
      MoveKeepsLocks(s, s', c);
    case Return => ReturnKeepsLocks(s, s', c);
    case _ =>
  }

  ghost function HeldKeys(s: State): set<string> {
    set c | c in s.calls && Holds(s.calls[c]) :: Key(s.calls[c].req)
  }

  lemma {:induction false} LocksInRun(w: World, run: seq<State>, i: nat)
    requires IsRun(w, run) && i < |run|
    ensures LockInv(run[i])
  {
    if i > 0 {
      LocksInRun(w, run, i - 1);
      assert StepAt(w, run, i);
      var c: nat, e :| StepBy(w, run[i - 1], run[i], c, e);
      StepKeepsLocks(w, run[i - 1], run[i], c, e);
    }
  }

  /** As for the controller: the lock table is exactly the set of keys of the calls in flight. */
  lemma LockTableIsHeldKeys(w: World, run: seq<State>, i: nat)
    requires IsRun(w, run) && i < |run|
    ensures run[i].locks == HeldKeys(run[i])
    ensures forall c, d | c in run[i].calls && d in run[i].calls && c != d
      && Holds(run[i].calls[c]) && Holds(run[i].calls[d]) :: Key(run[i].calls[c].req) != Key(run[i].calls[d].req)
    ensures (forall c | c in run[i].calls :: run[i].calls[c].pc.Returned?) ==> run[i].locks == {}
  {
    LocksInRun(w, run, i);
  }

  predicate Absolute(p: string) {
    p != "" && p[0] == '/'
  }

  /** Some absolute paths give the two volumes the same key. */
  ghost predicate ShareKey(v: string, v': string) {
    exists p, p' | Absolute(p) && Absolute(p') :: LockKey(v, p) == LockKey(v', p')
  }

  /** Of two volumes with the same key, the shorter id starts the longer one, which goes on with "-/". */
  lemma SharedKeyNests(v: string, p: string, v': string, p': string)
    requires Absolute(p) && Absolute(p') && LockKey(v, p) == LockKey(v', p') && |v| <= |v'|
    ensures (v == v' && p == p') || v + "-/" <= v'
  {
    var k := LockKey(v, p);
    assert k[..|v|] == v && k[|v|] == '-' && k[|v| + 1..] == p;
    assert k[..|v'|] == v' && k[|v'|] == '-' && k[|v'| + 1..] == p';
    if |v| < |v'| {
      assert k[|v| + 1] == '/';
      assert v'[..|v| + 2] == v + "-/";
    }
  }

  lemma NestedIdsShareKey(v: string, v': string)
    requires v + "-/" <= v'
    ensures ShareKey(v, v')
  {
    var rest := v'[|v| + 1..];
    var p := rest + "-/";
    assert v' == v + "-" + rest;
    assert LockKey(v, p) == LockKey(v', "/");
    assert Absolute(p) && Absolute("/");
  }

  /**
   Two different volumes can block each other's calls, on some absolute paths, if and only if one id
   starts with the other one and "-/".
   */
  lemma ShareKeyIff(v: string, v': string)
    requires v != v'
    ensures ShareKey(v, v') <==> v + "-/" <= v' || v' + "-/" <= v
  {
    if ShareKey(v, v') {
      var p, p' :| Absolute(p) && Absolute(p') && LockKey(v, p) == LockKey(v', p');
      if |v| <= |v'| {
        SharedKeyNests(v, p, v', p');
      } else {
        SharedKeyNests(v', p', v, p);
      }
    }
    if v + "-/" <= v' {
      NestedIdsShareKey(v, v');
    } else if v' + "-/" <= v {
      NestedIdsShareKey(v', v);
      var p', p :| Absolute(p') && Absolute(p) && LockKey(v', p') == LockKey(v, p);
      assert LockKey(v, p) == LockKey(v', p');
    }
  }

  /**
   So for ids without a slash the key "volume-path" tells every pair apart: two calls block each
   other exactly when they name the same volume and path.
   */
  lemma KeysAreInjective(v: string, p: string, v': string, p': string)
    requires '/' !in v && '/' !in v' && Absolute(p) && Absolute(p')
    ensures LockKey(v, p) == LockKey(v', p') <==> v == v' && p == p'
  {
    NestingNeedsSlash(v, v');
    NestingNeedsSlash(v', v);
    if LockKey(v, p) == LockKey(v', p') {
      if |v| <= |v'| {
        SharedKeyNests(v, p, v', p');
      } else {
        SharedKeyNests(v', p', v, p);
      }
    }
  }

  lemma NestingNeedsSlash(v: string, v': string)
    requires '/' !in v'
    ensures !(v + "-/" <= v')
  {
    assert (v + "-/")[|v| + 1] == '/';
    if |v| + 1 < |v'| {
      assert v'[|v| + 1] in v';
    }
  }

  /** A pair of ids with slashes that collides. */
  lemma SlashesCollide()
    ensures ShareKey("a", "a-/b")
  {
    ShareKeyIff("a", "a-/b");
  }

  /** A stage call past its checks is one that the world allows. */
  lemma StagesAsPromised(w: World, k: Call)
    requires Checked(k) && Follows(w, k.req) && k.req.Stage? && Holds(k) && !k.pc.Leaving?
    ensures MayStage(w, k.req.volume, k.req.path, k.req.device)
  {
  }

  /** Two calls that hold locks and work on one path are the same call. */
  lemma OnePathOneCall(w: World, s: State, c: nat, d: nat)
    requires LockInv(s) && Within(w, s) && c in s.calls && d in s.calls
    requires Holds(s.calls[c]) && Holds(s.calls[d]) && s.calls[c].req.path == s.calls[d].req.path
    ensures c == d
  {
    assert Follows(w, s.calls[c].req) && Follows(w, s.calls[d].req);
  }
}
