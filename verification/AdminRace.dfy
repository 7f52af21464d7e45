/** Creating the first global administrator while several replicas start at once. */
module AdminRace {
  import opened Options

  /** Settings of one replica: `email` is already stripped and lower-cased. */
  datatype Config = Config(enabled: bool, email: string)

  datatype Phase = Starting | Checked | Ready | Inserted | Created | Lost | Skipped | Crashed

  /** Committed users by address, with whether each holds the global Admin role; whether that
      role exists; and where each replica stands. */
  datatype State = State(users: map<string, bool>, role: bool, replicas: map<nat, Phase>)

  datatype Step = Check(r: nat) | Prepare(r: nat) | Flush(r: nat) | Commit(r: nat) | Crash(r: nat)

  predicate AdministratorExists(users: map<string, bool>) {
    exists e | e in users :: users[e]
  }

  predicate At(s: State, r: nat, phase: Phase) { r in s.replicas && s.replicas[r] == phase }

  function Move(s: State, r: nat, phase: Phase): State { s.(replicas := s.replicas[r := phase]) }

  /** Another replica has inserted the address and not committed yet. */
  predicate Held(cfgs: map<nat, Config>, s: State, email: string) {
    exists r | r in s.replicas && r in cfgs :: s.replicas[r] == Inserted && cfgs[r].email == email
  }

  /** One step of one replica. The insert of an address waits while another transaction holds
      it, and fails on the unique constraint once it is committed. */
  function Do(cfgs: map<nat, Config>, s: State, step: Step): Option<State> {
    if step.r !in cfgs then None
    else
      var r, cfg := step.r, cfgs[step.r];
      match step
      case Check(_) =>
        if !At(s, r, Starting) then None
        else if !cfg.enabled || AdministratorExists(s.users) then Some(Move(s, r, Skipped))
        else Some(Move(s, r, Checked))
      case Prepare(_) =>
        if !At(s, r, Checked) then None
        else if '@' !in cfg.email || !s.role then Some(Move(s, r, Skipped))
        else Some(Move(s, r, Ready))
      case Flush(_) =>
        if !At(s, r, Ready) || Held(cfgs, s, cfg.email) then None
        else if cfg.email in s.users then Some(Move(s, r, Lost))
        else Some(Move(s, r, Inserted))
      case Commit(_) =>
        if !At(s, r, Inserted) then None
        else Some(Move(s, r, Created).(users := s.users[cfg.email := true]))
      case Crash(_) =>
        if r in s.replicas && !Ended(s.replicas[r]) then Some(Move(s, r, Crashed)) else None
  }

  predicate Ended(p: Phase) { p == Created || p == Lost || p == Skipped || p == Crashed }

  predicate Init(cfgs: map<nat, Config>, s: State) {
    s.replicas.Keys == cfgs.Keys && forall r | r in s.replicas :: s.replicas[r] == Starting
  }

  predicate Run(cfgs: map<nat, Config>, states: seq<State>, steps: seq<Step>) {
    && |states| == |steps| + 1 && Init(cfgs, states[0])
    && forall i | 0 <= i < |steps| :: Do(cfgs, states[i], steps[i]) == Some(states[i + 1])
  }

  predicate SameSettings(cfgs: map<nat, Config>, cfg: Config) {
    forall r | r in cfgs :: cfgs[r] == cfg
  }

  // ----- what always holds -------------------------------------------------------------------

  /** The settings let an administrator be created, and the deployment has none. */
  predicate Wanted(cfg: Config, s0: State) {
    cfg.enabled && '@' in cfg.email && s0.role && !AdministratorExists(s0.users)
  }

  predicate SoundReplica(cfg: Config, s0: State, users: map<string, bool>, p: Phase) {
    && (p == Checked ==> cfg.enabled && !AdministratorExists(s0.users))
    && (p == Ready || p == Inserted || p == Created || p == Lost ==> Wanted(cfg, s0))
    && (p == Inserted ==> cfg.email !in users)
    && (p == Created ==> cfg.email !in s0.users && cfg.email in users)
    && (p == Lost ==> cfg.email in users)
    && (p == Skipped ==> !cfg.enabled || '@' !in cfg.email || !s0.role || AdministratorExists(users))
  }

  predicate Inv(cfg: Config, s0: State, s: State) {
    && s.role == s0.role
    && (s.users == s0.users || (Wanted(cfg, s0) && cfg.email !in s0.users && s.users == s0.users[cfg.email := true]))
    && (forall r | r in s.replicas :: SoundReplica(cfg, s0, s.users, s.replicas[r]))
    && (forall q, r | q in s.replicas && r in s.replicas && q != r :: !(Placed(s.replicas[q]) && Placed(s.replicas[r])))
    && ((exists r | r in s.replicas :: s.replicas[r] == Created) <==> s.users != s0.users)
  }

  predicate Placed(p: Phase) { p == Inserted || p == Created }

  lemma CommitKeeps(cfgs: map<nat, Config>, cfg: Config, s0: State, s: State, r: nat, s': State)
    requires SameSettings(cfgs, cfg) && Inv(cfg, s0, s) && Do(cfgs, s, Commit(r)) == Some(s')
    ensures Inv(cfg, s0, s')
  {
    assert SoundReplica(cfg, s0, s.users, s.replicas[r]);
    assert s.users == s0.users;
    assert s'.users[cfg.email];
    forall q | q in s'.replicas ensures SoundReplica(cfg, s0, s'.users, s'.replicas[q]) {
      assert SoundReplica(cfg, s0, s.users, s.replicas[q]);
    }
    assert s'.replicas[r] == Created;
  }

  lemma FlushKeeps(cfgs: map<nat, Config>, cfg: Config, s0: State, s: State, r: nat, s': State)
    requires SameSettings(cfgs, cfg) && Inv(cfg, s0, s) && s.replicas.Keys == cfgs.Keys && Do(cfgs, s, Flush(r)) == Some(s')
    ensures Inv(cfg, s0, s')
  {
    assert SoundReplica(cfg, s0, s.users, s.replicas[r]);
    forall q | q in s'.replicas ensures SoundReplica(cfg, s0, s'.users, s'.replicas[q]) {
      assert SoundReplica(cfg, s0, s.users, s.replicas[q]);
    }
    forall q | q in s.replicas && cfg.email !in s.users ensures !Placed(s.replicas[q]) {
      assert SoundReplica(cfg, s0, s.users, s.replicas[q]);
    }
    CreatedStays(s, s', r);
  }

  /** A step that makes no replica `Created` leaves the created ones alone. */
  lemma CreatedStays(s: State, s': State, r: nat)
    requires r in s.replicas && s.replicas[r] != Created && r in s'.replicas && s'.replicas[r] != Created
    requires s'.replicas == s.replicas[r := s'.replicas[r]]
    ensures (exists q | q in s'.replicas :: s'.replicas[q] == Created) <==> (exists q | q in s.replicas :: s.replicas[q] == Created)
  {
    assert forall q | q in s.replicas && q != r :: s'.replicas[q] == s.replicas[q];
  }

  lemma QuietKeeps(cfgs: map<nat, Config>, cfg: Config, s0: State, s: State, step: Step, s': State)
    requires SameSettings(cfgs, cfg) && Inv(cfg, s0, s) && Do(cfgs, s, step) == Some(s')
    requires step.Check? || step.Prepare? || step.Crash?
    ensures Inv(cfg, s0, s')
  {
    assert SoundReplica(cfg, s0, s.users, s.replicas[step.r]);
    forall q | q in s'.replicas ensures SoundReplica(cfg, s0, s'.users, s'.replicas[q]) {
      assert SoundReplica(cfg, s0, s.users, s.replicas[q]);
    }
    if s.users != s0.users {
      assert AdministratorExists(s.users) by { assert s.users[cfg.email]; }
    }
    CreatedStays(s, s', step.r);
  }

  lemma {:induction false} RunKeeps(cfgs: map<nat, Config>, cfg: Config, states: seq<State>, steps: seq<Step>, n: nat)
    requires SameSettings(cfgs, cfg) && Run(cfgs, states, steps) && n < |states|
    ensures Inv(cfg, states[0], states[n]) && states[n].replicas.Keys == cfgs.Keys
  {
    if n > 0 {
      RunKeeps(cfgs, cfg, states, steps, n - 1);
      var s, step, s' := states[n - 1], steps[n - 1], states[n];
      match step
      case Commit(r) => CommitKeeps(cfgs, cfg, states[0], s, r, s');
      case Flush(r) => FlushKeeps(cfgs, cfg, states[0], s, r, s');
      case _ => QuietKeeps(cfgs, cfg, states[0], s, step, s');
    }
  }

  // ----- what is promised --------------------------------------------------------------------------

  /** Replicas on the same settings, in any interleaving and with any of them crashing: the
      users change at most once, by the one administrator at the configured address, created
      by exactly one replica; every other replica leaves them unchanged. */
  lemma AtMostOneAdministrator(cfgs: map<nat, Config>, cfg: Config, states: seq<State>, steps: seq<Step>, n: nat)
    requires SameSettings(cfgs, cfg) && Run(cfgs, states, steps) && n < |states|
    ensures states[n].users == states[0].users ||
            (Wanted(cfg, states[0]) && cfg.email !in states[0].users && states[n].users == states[0].users[cfg.email := true])
    ensures forall q, r | q in states[n].replicas && r in states[n].replicas && states[n].replicas[q] == states[n].replicas[r] == Created :: q == r
    ensures states[n].users != states[0].users <==> exists r | r in states[n].replicas :: states[n].replicas[r] == Created
    ensures AdministratorExists(states[0].users) ==> states[n].users == states[0].users
  {
    RunKeeps(cfgs, cfg, states, steps, n);
  }

  /** Once every replica has ended and not all have crashed, there is a global administrator
      exactly when there was one before, or the settings allow one and the address was free.
      An address some ordinary account holds means there is none, and there never will be. */
  lemma AdministratorIff(cfgs: map<nat, Config>, cfg: Config, states: seq<State>, steps: seq<Step>, n: nat)
    requires SameSettings(cfgs, cfg) && Run(cfgs, states, steps) && n < |states|
    requires forall r | r in states[n].replicas :: Ended(states[n].replicas[r])
    requires exists r | r in states[n].replicas :: states[n].replicas[r] != Crashed
    ensures AdministratorExists(states[n].users) <==>
            AdministratorExists(states[0].users) || (cfg.enabled && '@' in cfg.email && states[0].role && cfg.email !in states[0].users)
  {
    RunKeeps(cfgs, cfg, states, steps, n);
    var s0, s := states[0], states[n];
    var r :| r in s.replicas && s.replicas[r] != Crashed;
    assert SoundReplica(cfg, s0, s.users, s.replicas[r]);
    if s.users != s0.users {
      assert s.users[cfg.email];
    }
  }

  // ----- replicas on different settings ----------------------------------------------------------------

  predicate Soundly(cfg: Config, s0: State, users: map<string, bool>, p: Phase) {
    && (p == Checked ==> cfg.enabled && !AdministratorExists(s0.users))
    && (p == Ready || p == Inserted || p == Created ==> Wanted(cfg, s0))
    && (p == Inserted ==> cfg.email !in users)
    && (p == Created ==> cfg.email !in s0.users && cfg.email in users)
  }

  /** What holds whatever the replicas' settings are. */
  predicate InvAny(cfgs: map<nat, Config>, s0: State, s: State) {
    && s.role == s0.role && s.replicas.Keys == cfgs.Keys
    && (forall e | e in s0.users :: e in s.users && s.users[e] == s0.users[e])
    && (forall r | r in s.replicas :: Soundly(cfgs[r], s0, s.users, s.replicas[r]))
    && (forall q, r | q in s.replicas && r in s.replicas && q != r ::
          Placed(s.replicas[q]) && Placed(s.replicas[r]) ==> cfgs[q].email != cfgs[r].email)
  }

  lemma AnyCommitKeeps(cfgs: map<nat, Config>, s0: State, s: State, r: nat, s': State)
    requires InvAny(cfgs, s0, s) && Do(cfgs, s, Commit(r)) == Some(s')
    ensures InvAny(cfgs, s0, s')
  {
    assert Soundly(cfgs[r], s0, s.users, s.replicas[r]);
    forall q | q in s'.replicas ensures Soundly(cfgs[q], s0, s'.users, s'.replicas[q]) {
      assert Soundly(cfgs[q], s0, s.users, s.replicas[q]);
    }
  }

  lemma AnyFlushKeeps(cfgs: map<nat, Config>, s0: State, s: State, r: nat, s': State)
    requires InvAny(cfgs, s0, s) && Do(cfgs, s, Flush(r)) == Some(s')
    ensures InvAny(cfgs, s0, s')
  {
    assert Soundly(cfgs[r], s0, s.users, s.replicas[r]);
    forall q | q in s'.replicas ensures Soundly(cfgs[q], s0, s'.users, s'.replicas[q]) {
      assert Soundly(cfgs[q], s0, s.users, s.replicas[q]);
    }
    forall q | q in s.replicas && Placed(s.replicas[q]) && s'.replicas[r] == Inserted ensures cfgs[q].email != cfgs[r].email {
      assert Soundly(cfgs[q], s0, s.users, s.replicas[q]);
    }
  }

  lemma AnyMoveKeeps(cfgs: map<nat, Config>, s0: State, s: State, r: nat, phase: Phase)
    requires InvAny(cfgs, s0, s) && r in s.replicas && !Placed(phase) && Soundly(cfgs[r], s0, s.users, phase)
    ensures InvAny(cfgs, s0, Move(s, r, phase))
  {
  }

  lemma NoneThenNoneBefore(before: map<string, bool>, users: map<string, bool>)
    requires forall e | e in before :: e in users && users[e] == before[e]
    ensures AdministratorExists(before) ==> AdministratorExists(users)
  {
  }

  lemma AnyQuietKeeps(cfgs: map<nat, Config>, s0: State, s: State, step: Step, s': State)
    requires InvAny(cfgs, s0, s) && Do(cfgs, s, step) == Some(s')
    requires step.Check? || step.Prepare? || step.Crash?
    ensures InvAny(cfgs, s0, s')
  {
    var r := step.r;
    assert Soundly(cfgs[r], s0, s.users, s.replicas[r]);
    NoneThenNoneBefore(s0.users, s.users);
    AnyMoveKeeps(cfgs, s0, s, r, s'.replicas[r]);
    assert s' == Move(s, r, s'.replicas[r]);
  }

  lemma {:induction false} AnyRunKeeps(cfgs: map<nat, Config>, states: seq<State>, steps: seq<Step>, n: nat)
    requires Run(cfgs, states, steps) && n < |states|
    ensures InvAny(cfgs, states[0], states[n])
  {
    if n > 0 {
      AnyRunKeeps(cfgs, states, steps, n - 1);
      var s, step, s' := states[n - 1], steps[n - 1], states[n];
      match step
      case Commit(r) => AnyCommitKeeps(cfgs, states[0], s, r, s');
      case Flush(r) => AnyFlushKeeps(cfgs, states[0], s, r, s');
      case _ => AnyQuietKeeps(cfgs, states[0], s, step, s');
    }
  }

  /** Two replicas that want different free addresses. */
  predicate Rivals(cfgs: map<nat, Config>, s0: State, q: nat, r: nat) {
    && q in cfgs && r in cfgs && q != r && Wanted(cfgs[q], s0) && Wanted(cfgs[r], s0)
    && cfgs[q].email != cfgs[r].email && cfgs[q].email !in s0.users && cfgs[r].email !in s0.users
  }

  predicate BothCreated(s: State, q: nat, r: nat) {
    q in s.replicas && r in s.replicas && q != r && s.replicas[q] == s.replicas[r] == Created
  }

  lemma BothPrepare(cfgs: map<nat, Config>, s0: State, q: nat, r: nat) returns (s1: State, s2: State, s3: State, s4: State)
    requires Init(cfgs, s0) && Rivals(cfgs, s0, q, r)
    ensures Do(cfgs, s0, Check(q)) == Some(s1) && Do(cfgs, s1, Check(r)) == Some(s2)
    ensures Do(cfgs, s2, Prepare(q)) == Some(s3) && Do(cfgs, s3, Prepare(r)) == Some(s4)
    ensures s4 == s0.(replicas := s0.replicas[q := Ready][r := Ready])
  {
    s1 := Move(s0, q, Checked);
    s2 := Move(s1, r, Checked);
    s3 := Move(s2, q, Ready);
    s4 := Move(s3, r, Ready);
    assert s4.replicas == s0.replicas[q := Ready][r := Ready];
  }

  lemma BothCommit(cfgs: map<nat, Config>, s0: State, s4: State, q: nat, r: nat) returns (s5: State, s6: State, s7: State, s8: State)
    requires Init(cfgs, s0) && Rivals(cfgs, s0, q, r) && s4 == s0.(replicas := s0.replicas[q := Ready][r := Ready])
    ensures Do(cfgs, s4, Flush(q)) == Some(s5) && Do(cfgs, s5, Flush(r)) == Some(s6)
    ensures Do(cfgs, s6, Commit(q)) == Some(s7) && Do(cfgs, s7, Commit(r)) == Some(s8)
    ensures BothCreated(s8, q, r) && s8.users == s0.users[cfgs[q].email := true][cfgs[r].email := true]
  {
    assert !Held(cfgs, s4, cfgs[q].email);
    s5 := Move(s4, q, Inserted);
    assert !Held(cfgs, s5, cfgs[r].email);
    s6 := Move(s5, r, Inserted);
    s7 := Move(s6, q, Created).(users := s6.users[cfgs[q].email := true]);
    s8 := Move(s7, r, Created).(users := s7.users[cfgs[r].email := true]);
  }

  /** Replicas naming different free addresses can both succeed: the unique constraint only
      settles a race for one address. */
  lemma DifferentAddressesMakeTwo(cfgs: map<nat, Config>, s0: State, q: nat, r: nat) returns (states: seq<State>, steps: seq<Step>)
    requires Init(cfgs, s0) && Rivals(cfgs, s0, q, r)
    ensures Run(cfgs, states, steps) && states[0] == s0 && BothCreated(states[|steps|], q, r)
    ensures states[|steps|].users == s0.users[cfgs[q].email := true][cfgs[r].email := true]
  {
    var s1, s2, s3, s4 := BothPrepare(cfgs, s0, q, r);
    var s5, s6, s7, s8 := BothCommit(cfgs, s0, s4, q, r);
    states := [s0, s1, s2, s3, s4, s5, s6, s7, s8];
    steps := [Check(q), Check(r), Prepare(q), Prepare(r), Flush(q), Flush(r), Commit(q), Commit(r)];
  }

  ghost predicate TwoPossible(cfgs: map<nat, Config>, s0: State) {
    exists states, steps, n: nat, q, r :: Run(cfgs, states, steps) && states[0] == s0 && n < |states| && BothCreated(states[n], q, r)
  }

  /** Whatever the settings of the replicas: two of them can both create an administrator
      exactly when two want one at different free addresses. */
  lemma TwoPossibleIff(cfgs: map<nat, Config>, s0: State)
    requires Init(cfgs, s0)
    ensures TwoPossible(cfgs, s0) <==> exists q, r | q in cfgs && r in cfgs :: Rivals(cfgs, s0, q, r)
  {
    if TwoPossible(cfgs, s0) {
      var states: seq<State>, steps: seq<Step>, n: nat, q: nat, r: nat :|
        Run(cfgs, states, steps) && states[0] == s0 && n < |states| && BothCreated(states[n], q, r);
      AnyRunKeeps(cfgs, states, steps, n);
      assert Soundly(cfgs[q], s0, states[n].users, states[n].replicas[q]);
      assert Soundly(cfgs[r], s0, states[n].users, states[n].replicas[r]);
      assert Rivals(cfgs, s0, q, r);
    }
    if q, r :| q in cfgs && r in cfgs && Rivals(cfgs, s0, q, r) {
      var states, steps := DifferentAddressesMakeTwo(cfgs, s0, q, r);
      assert BothCreated(states[|steps|], q, r);
    }
  }
}
