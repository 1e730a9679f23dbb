/**
 The refresh tokens of one user in Redis: a key per live refresh id, the session, and a pointer
 to the current refresh key, all written with the same TTL by two scripts. Ids made by the
 service are fresh; ids presented to it are arbitrary. A script, once sent, may run late or again.
 */
module RefreshTokens {
  import opened Sets
  import opened Wrappers

  type Jti = nat
  type SessionId = nat

  /** A key with its value and the last instant it is there. */
  datatype Entry<T> = Entry(value: T, until: int)

  /** A script with its arguments; jti is the new refresh id. */
  datatype Command =
    | Rotate(presented: Jti, oldSession: SessionId, jti: Jti, newSession: SessionId)
    | Replace(jti: Jti, newSession: SessionId)

  /** live holds the refresh keys and their expiry; sent, issued, last and rotated are history. */
  datatype State = State(
    now: int,
    live: map<Jti, int>,
    session: Option<Entry<SessionId>>,
    pointer: Option<Entry<Jti>>,
    sent: set<Command>,
    issued: set<Jti>,
    last: Option<Jti>,
    rotated: seq<Jti>)

  datatype Event = Tick(elapsed: nat) | Send(command: Command) | Exec(command: Command)

  const Init := State(0, map[], None, None, {}, {}, None, [])

  predicate Alive(s: State, jti: Jti) {
    jti in s.live && s.now <= s.live[jti]
  }

  /** GET of a key that may be missing or expired. */
  function Get<T>(s: State, entry: Option<Entry<T>>): Option<T> {
    if entry.Some? && s.now <= entry.value.until then Some(entry.value.value) else None
  }

  /** The script's three checks; a set and live pointer must name the presented id. */
  predicate RotateChecks(s: State, presented: Jti, oldSession: SessionId) {
    && Get(s, s.session) == Some(oldSession)
    && Alive(s, presented)
    && (Get(s, s.pointer).Some? ==> Get(s, s.pointer).value == presented)
  }

  /** A script that returns 1 as a rotation. */
  predicate Rotates(ttl: int, s: State, c: Command) {
    c.Rotate? && ttl > 0 && RotateChecks(s, c.presented, c.oldSession)
  }

  /** The three PSETEX. */
  function Issue(ttl: int, s: State, jti: Jti, session: SessionId): State {
    s.(live := s.live[jti := s.now + ttl],
       session := Some(Entry(session, s.now + ttl)),
       pointer := Some(Entry(jti, s.now + ttl)),
       issued := s.issued + {jti},
       last := Some(jti))
  }

  function DeleteTracked(s: State): State {
    if Get(s, s.pointer).Some? then s.(live := s.live - {Get(s, s.pointer).value}) else s
  }

  /** PSETEX refuses a TTL that is not positive; a script keeps what it did before. */
  function Script(ttl: int, s: State, c: Command): State {
    match c
    case Rotate(presented, oldSession, jti, newSession) =>
      if Rotates(ttl, s, c) then
        var issued := Issue(ttl, s, jti, newSession);
        issued.(live := issued.live - {presented}, rotated := s.rotated + [presented])
      else s
    case Replace(jti, newSession) =>
      if ttl <= 0 then DeleteTracked(s) else Issue(ttl, DeleteTracked(s), jti, newSession)
  }

  /** The new id was not made before. */
  predicate FreshId(s: State, jti: Jti) {
    forall c | c in s.sent :: c.jti != jti
  }

  function Apply(ttl: int, s: State, e: Event): State {
    match e
    case Tick(elapsed) => s.(now := s.now + elapsed)
    case Send(c) => if FreshId(s, c.jti) then s.(sent := s.sent + {c}) else s
    case Exec(c) => if c in s.sent then Script(ttl, s, c) else s
  }

  function Run(ttl: int, es: seq<Event>): State {
    if es == [] then Init else Apply(ttl, Run(ttl, es[..|es| - 1]), es[|es| - 1])
  }

  // ----- In every run -----

  /** The id is the pointer's and the last one issued, and session and pointer live as long as it does. */
  predicate IsCurrent(s: State, jti: Jti) {
    && jti in s.live
    && s.last == Some(jti)
    && s.pointer == Some(Entry(jti, s.live[jti]))
    && s.session.Some? && s.session.value.until == s.live[jti]
  }

  ghost predicate Inv(ttl: int, s: State) {
    && (forall jti | Alive(s, jti) :: IsCurrent(s, jti))
    && s.live.Keys <= s.issued
    && (ttl <= 0 ==> s.issued == {})
    && (forall jti | jti in s.rotated :: jti in s.issued)
    && SentInv(s)
    && forall c | c in s.sent && Alive(s, c.jti) :: InSession(s, c)
  }

  /** The session is the one that the command was given. */
  predicate InSession(s: State, c: Command) {
    s.session.Some? && s.session.value.value == c.newSession
  }

  /** Ids are made once, and a rotation that has issued its id was not presented with it. */
  ghost predicate SentInv(s: State) {
    && (forall c, d | c in s.sent && d in s.sent && c.jti == d.jti :: c == d)
    && (forall jti | jti in s.issued :: exists c :: c in s.sent && c.jti == jti)
    && (forall c | c in s.sent && c.Rotate? && c.jti in s.issued :: c.presented != c.jti)
  }

  lemma SendKept(ttl: int, s: State, c: Command)
    requires Inv(ttl, s) && FreshId(s, c.jti)
    ensures Inv(ttl, s.(sent := s.sent + {c}))
  {
    var s' := s.(sent := s.sent + {c});
    assert forall jti | Alive(s', jti) :: Alive(s, jti);
    forall jti | jti in s'.issued ensures exists d :: d in s'.sent && d.jti == jti && d in s.sent {
      var d :| d in s.sent && d.jti == jti;
      assert d in s'.sent;
    }
  }

  lemma IssueKeepsSent(ttl: int, s: State, c: Command)
    requires SentInv(s) && s.live.Keys <= s.issued && c in s.sent && (c.Rotate? ==> Rotates(ttl, s, c))
    ensures SentInv(Script(ttl, s, c))
  {
    var s' := Script(ttl, s, c);
    forall jti | jti in s'.issued ensures exists d :: d in s'.sent && d.jti == jti {
      if jti != c.jti {
        var d :| d in s.sent && d.jti == jti;
      }
    }
  }

  /** After a rotation only the new id is live. */
  lemma OnlyNewIdLive(ttl: int, s: State, c: Command, jti: Jti)
    requires Inv(ttl, s) && Rotates(ttl, s, c) && Alive(Script(ttl, s, c), jti)
    ensures jti == c.jti
  {
    assert IsCurrent(s, c.presented);
    assert jti != c.jti ==> Alive(s, jti) && IsCurrent(s, jti);
  }

  lemma ExecKept(ttl: int, s: State, c: Command)
    requires Inv(ttl, s) && c in s.sent
    ensures Inv(ttl, Script(ttl, s, c))
  {
    var s' := Script(ttl, s, c);
    if c.Rotate? && !Rotates(ttl, s, c) {
      assert s' == s;
    } else {
      IssueKeepsSent(ttl, s, c);
      forall jti | Alive(s', jti) ensures IsCurrent(s', jti) {
        if c.Rotate? {
          OnlyNewIdLive(ttl, s, c, jti);
        } else {
          assert jti == c.jti || (Alive(s, jti) && IsCurrent(s, jti));
        }
      }
      forall d | d in s'.sent && Alive(s', d.jti) ensures InSession(s', d) {
        if c.Rotate? {
          OnlyNewIdLive(ttl, s, c, d.jti);
        } else {
          assert d.jti == c.jti || (Alive(s, d.jti) && InSession(s, d) && IsCurrent(s, d.jti));
        }
      }
    }
  }

  lemma Kept(ttl: int, s: State, e: Event)
    requires Inv(ttl, s)
    ensures Inv(ttl, Apply(ttl, s, e))
  {
    if e.Exec? {
      if e.command in s.sent {
        ExecKept(ttl, s, e.command);
      }
    } else if e.Send? {
      if FreshId(s, e.command.jti) {
        SendKept(ttl, s, e.command);
      }
    } else {
      assert forall jti | Alive(Apply(ttl, s, e), jti) :: Alive(s, jti);
    }
  }

  lemma {:induction false} Always(ttl: int, es: seq<Event>)
    ensures Inv(ttl, Run(ttl, es))
  {
    if es != [] {
      Always(ttl, es[..|es| - 1]);
      Kept(ttl, Run(ttl, es[..|es| - 1]), es[|es| - 1]);
    }
  }

  /** At most one refresh key is live; it is the last one issued, and pointer and session expire with it. */
  lemma OneLiveKey(ttl: int, es: seq<Event>, a: Jti, b: Jti)
    requires Alive(Run(ttl, es), a)
    ensures IsCurrent(Run(ttl, es), a)
    ensures Alive(Run(ttl, es), b) ==> a == b
  {
    Always(ttl, es);
    assert Alive(Run(ttl, es), b) ==> IsCurrent(Run(ttl, es), b);
  }

  /** While an id is live the session is the one that was given with it. */
  lemma LiveIdsSession(ttl: int, es: seq<Event>, c: Command)
    requires c in Run(ttl, es).sent && Alive(Run(ttl, es), c.jti)
    ensures Get(Run(ttl, es), Run(ttl, es).session) == Some(c.newSession)
  {
    Always(ttl, es);
    var s := Run(ttl, es);
    assert IsCurrent(s, c.jti) && InSession(s, c);
  }

  /** No key outlives its TTL. */
  lemma {:induction false} WithinTtl(ttl: int, es: seq<Event>, jti: Jti)
    requires jti in Run(ttl, es).live
    ensures Run(ttl, es).live[jti] <= Run(ttl, es).now + ttl
  {
    var n := |es| - 1;
    if jti in Run(ttl, es[..n]).live {
      WithinTtl(ttl, es[..n], jti);
    }
  }

  /** An id that is not issued again is dead once more than the TTL has passed. */
  lemma DeadAfterTtl(ttl: int, es: seq<Event>, elapsed: nat, jti: Jti)
    requires elapsed > ttl
    ensures !Alive(Run(ttl, es + [Tick(elapsed)]), jti)
  {
    RunAppend(ttl, es, Tick(elapsed));
    if jti in Run(ttl, es).live {
      WithinTtl(ttl, es, jti);
    }
  }

  // ----- An id is rotated once -----

  /** Event i of a run obeys a rule. */
  predicate Follows(ttl: int, es: seq<Event>, i: nat, rule: (State, Event) -> bool) {
    i < |es| && rule(Run(ttl, es[..i]), es[i])
  }

  /** All events of a run from some event on obey a rule. */
  predicate Obeys(ttl: int, es: seq<Event>, from: nat, rule: (State, Event) -> bool) {
    forall i | from <= i < |es| :: Follows(ttl, es, i, rule)
  }

  /** Once its id was rotated a login script does not run again; any other script may. */
  predicate LoginsUnused(s: State, e: Event) {
    e.Exec? && e.command.Replace? && e.command in s.sent ==> e.command.jti !in s.rotated
  }

  /** The ids rotated are distinct and gone, and a rotation that has issued its id has used up the presented one. */
  ghost predicate RotationInv(s: State) {
    && (forall i | 0 <= i < |s.rotated| :: s.rotated[i] !in s.live)
    && (forall i, j | 0 <= i < j < |s.rotated| :: s.rotated[i] != s.rotated[j])
    && (forall c | c in s.sent && c.Rotate? && c.jti in s.issued :: c.presented in s.rotated)
  }

  /** A rotation that succeeds issues an id for the first time. */
  lemma RotatesOnce(ttl: int, s: State, c: Command)
    requires RotationInv(s) && c in s.sent && Rotates(ttl, s, c)
    ensures c.jti !in s.issued
  {
    assert forall id | id in s.rotated :: id !in s.live;
  }

  lemma RotateKeepsRotation(ttl: int, s: State, c: Command)
    requires Inv(ttl, s) && RotationInv(s) && c in s.sent && Rotates(ttl, s, c)
    ensures RotationInv(Script(ttl, s, c))
  {
    var s' := Script(ttl, s, c);
    RotatesOnce(ttl, s, c);
    assert s'.rotated[|s.rotated|] == c.presented;
    forall d | d in s'.sent && d.Rotate? && d.jti in s'.issued ensures d.presented in s'.rotated {
      if d.jti != c.jti {
        assert d.presented in s.rotated && s.rotated <= s'.rotated;
      }
    }
  }

  lemma RotationKept(ttl: int, s: State, e: Event)
    requires Inv(ttl, s) && RotationInv(s) && LoginsUnused(s, e)
    ensures RotationInv(Apply(ttl, s, e))
  {
    if e.Exec? && e.command in s.sent && Rotates(ttl, s, e.command) {
      RotateKeepsRotation(ttl, s, e.command);
    }
  }

  lemma {:induction false} RotationAlways(ttl: int, es: seq<Event>, n: nat)
    requires n <= |es| && Obeys(ttl, es, 0, LoginsUnused)
    ensures RotationInv(Run(ttl, es[..n]))
  {
    if n > 0 {
      RotationAlways(ttl, es, n - 1);
      Always(ttl, es[..n - 1]);
      assert es[..n][..n - 1] == es[..n - 1];
      assert Follows(ttl, es, n - 1, LoginsUnused);
      RotationKept(ttl, Run(ttl, es[..n - 1]), es[n - 1]);
    }
  }

  /** Event i of the run is a rotation that succeeds. */
  predicate RotatesAt(ttl: int, es: seq<Event>, i: nat) {
    && i < |es| && es[i].Exec?
    && es[i].command in Run(ttl, es[..i]).sent && Rotates(ttl, Run(ttl, es[..i]), es[i].command)
  }

  lemma {:induction false} RotatedGrows(ttl: int, es: seq<Event>, i: nat)
    requires i <= |es|
    ensures Run(ttl, es[..i]).rotated <= Run(ttl, es).rotated
    decreases |es|
  {
    if i == |es| {
      assert es[..i] == es;
    } else {
      var n := |es| - 1;
      RotatedGrows(ttl, es[..n], i);
      assert es[..n][..i] == es[..i];
    }
  }

  /** No refresh id is ever rotated successfully twice. */
  lemma NeverRotatedTwice(ttl: int, es: seq<Event>, i: nat, j: nat)
    requires Obeys(ttl, es, 0, LoginsUnused) && i < j && RotatesAt(ttl, es, i) && RotatesAt(ttl, es, j)
    ensures es[i].command.presented != es[j].command.presented
  {
    assert es[..i + 1][..i] == es[..i];
    assert es[..j][..i + 1] == es[..i + 1];
    RotatedGrows(ttl, es[..j], i + 1);
    RotationAlways(ttl, es, j);
    var first, s := Run(ttl, es[..i + 1]), Run(ttl, es[..j]);
    assert first.rotated[|first.rotated| - 1] == es[i].command.presented;
    assert s.rotated[|first.rotated| - 1] == es[i].command.presented;
  }

  ghost predicate RotatesTwice(ttl: int, es: seq<Event>) {
    exists i: nat, j: nat :: i < j && RotatesAt(ttl, es, i) && RotatesAt(ttl, es, j)
                             && es[i].command.presented == es[j].command.presented
  }

  /** No continuation of the run by the rule rotates an id twice. */
  ghost predicate StaysOnce(ttl: int, es: seq<Event>) {
    forall gs | es <= gs && Obeys(ttl, gs, |es|, LoginsUnused) :: !RotatesTwice(ttl, gs)
  }

  /** When an id was rotated. */
  lemma {:induction false} RotatedAt(ttl: int, es: seq<Event>, jti: Jti) returns (i: nat)
    requires jti in Run(ttl, es).rotated
    ensures RotatesAt(ttl, es, i) && es[i].command.presented == jti
  {
    var n := |es| - 1;
    if jti in Run(ttl, es[..n]).rotated {
      i := RotatedAt(ttl, es[..n], jti);
      assert es[..n][..i] == es[..i];
    } else {
      i := n;
    }
  }

  /** A login script that issues its id makes it the live one, so it can be rotated by a new command. */
  lemma IssuedRotates(ttl: int, s: State, login: Command) returns (r: Command)
    requires ttl > 0 && login.Replace? && login in s.sent
    ensures
      var s1 := Apply(ttl, s, Exec(login));
      var s2 := Apply(ttl, s1, Send(r));
      r in s2.sent && Rotates(ttl, s2, r) && r.presented == login.jti
  {
    var ids := set c | c in s.sent :: c.jti;
    var made := Unused(ids);
    r := Rotate(login.jti, login.newSession, made, login.newSession);
    forall c | c in s.sent ensures c.jti != made {
      assert c.jti in ids;
    }
    assert FreshId(Apply(ttl, s, Exec(login)), made);
  }

  lemma ThreeMore(ttl: int, es: seq<Event>, e: Event, f: Event, g: Event) returns (gs: seq<Event>)
    ensures es + [e] <= gs && |gs| == |es| + 3 && gs[|es|] == e && gs[|es| + 1] == f && gs[|es| + 2] == g
    ensures Run(ttl, gs[..|es| + 2]) == Apply(ttl, Apply(ttl, Run(ttl, es), e), f)
  {
    gs := es + [e] + [f] + [g];
    assert gs[..|es| + 2] == es + [e] + [f] && (es + [e] + [f])[..|es| + 1] == es + [e] && (es + [e])[..|es|] == es;
  }

  lemma RotatesAtStays(ttl: int, es: seq<Event>, gs: seq<Event>, i: nat)
    requires es <= gs && RotatesAt(ttl, es, i)
    ensures RotatesAt(ttl, gs, i) && gs[i] == es[i]
  {
    assert gs[..i] == es[..i];
  }

  lemma OthersObey(ttl: int, es: seq<Event>, from: nat)
    requires forall i | from <= i < |es| :: !(es[i].Exec? && es[i].command.Replace?)
    ensures Obeys(ttl, es, from, LoginsUnused)
  {
  }

  lemma LoginAgainRotates(ttl: int, es: seq<Event>, login: Command) returns (gs: seq<Event>)
    requires login.Replace? && login in Run(ttl, es).sent && login.jti in Run(ttl, es).rotated
    ensures es + [Exec(login)] <= gs && Obeys(ttl, gs, |es| + 1, LoginsUnused) && RotatesTwice(ttl, gs)
  {
    Always(ttl, es);
    var n := |es|;
    var i := RotatedAt(ttl, es, login.jti);
    var r := IssuedRotates(ttl, Run(ttl, es), login);
    gs := ThreeMore(ttl, es, Exec(login), Send(r), Exec(r));
    RotatesAtStays(ttl, es, gs, i);
    assert RotatesAt(ttl, gs, n + 2);
    OthersObey(ttl, gs, n + 1);
  }

  /** The rule is exact: an event obeys it if and only if no continuation by the rule rotates an id twice. */
  lemma LoginsUnusedExactly(ttl: int, es: seq<Event>, e: Event)
    requires Obeys(ttl, es, 0, LoginsUnused)
    ensures LoginsUnused(Run(ttl, es), e) <==> StaysOnce(ttl, es + [e])
  {
    if LoginsUnused(Run(ttl, es), e) {
      forall gs: seq<Event> | es + [e] <= gs && Obeys(ttl, gs, |es| + 1, LoginsUnused) ensures !RotatesTwice(ttl, gs) {
        ObeysBefore(ttl, es, e, gs, LoginsUnused);
        forall i: nat, j: nat | i < j && RotatesAt(ttl, gs, i) && RotatesAt(ttl, gs, j)
          ensures gs[i].command.presented != gs[j].command.presented
        {
          NeverRotatedTwice(ttl, gs, i, j);
        }
      }
    } else {
      var gs := LoginAgainRotates(ttl, es, e.command);
      assert |es + [e]| == |es| + 1;
    }
  }

  lemma ObeysBefore(ttl: int, es: seq<Event>, e: Event, gs: seq<Event>, rule: (State, Event) -> bool)
    requires Obeys(ttl, es, 0, rule) && rule(Run(ttl, es), e)
    requires es + [e] <= gs && Obeys(ttl, gs, |es| + 1, rule)
    ensures Obeys(ttl, gs, 0, rule)
  {
    assert es[..|es|] == es;
    forall i | 0 <= i <= |es| ensures Follows(ttl, gs, i, rule) {
      assert gs[..i] == es[..i] && gs[i] == (es + [e])[i];
      assert i < |es| ==> Follows(ttl, es, i, rule);
    }
  }

  // ----- A successor ends its predecessor -----

  /** An id that was issued and is no longer the last one: another was issued after it. */
  predicate Succeeded(s: State, jti: Jti) {
    jti in s.issued && s.last != Some(jti)
  }

  /** Once its id has a successor a login script does not run again; any other script may. */
  predicate LoginsCurrent(s: State, e: Event) {
    e.Exec? && e.command.Replace? && e.command in s.sent ==> !Succeeded(s, e.command.jti)
  }

  /** The id of a rotation that was issued succeeds the presented one. */
  ghost predicate SuccessionInv(s: State) {
    forall c | c in s.sent && c.Rotate? && c.jti in s.issued :: Succeeded(s, c.presented)
  }

  lemma SuccessionKept(ttl: int, s: State, e: Event)
    requires Inv(ttl, s) && SuccessionInv(s) && LoginsCurrent(s, e)
    ensures SuccessionInv(Apply(ttl, s, e))
    ensures forall jti | Succeeded(s, jti) :: Succeeded(Apply(ttl, s, e), jti)
  {
    if e.Exec? && e.command in s.sent && Rotates(ttl, s, e.command) {
      RotationSucceeds(ttl, s, e.command);
    }
  }

  lemma RotationSucceeds(ttl: int, s: State, c: Command)
    requires Inv(ttl, s) && SuccessionInv(s) && c in s.sent && Rotates(ttl, s, c)
    ensures c.jti !in s.issued && Succeeded(Script(ttl, s, c), c.presented)
  {
    assert IsCurrent(s, c.presented);
    ExecKept(ttl, s, c);
  }

  /** With the rule what has a successor keeps one. */
  lemma {:induction false} SuccessionAlways(ttl: int, es: seq<Event>, i: nat, n: nat)
    requires i <= n <= |es| && Obeys(ttl, es, 0, LoginsCurrent)
    ensures SuccessionInv(Run(ttl, es[..n]))
    ensures forall jti | Succeeded(Run(ttl, es[..i]), jti) :: Succeeded(Run(ttl, es[..n]), jti)
  {
    if n > 0 {
      SuccessionAlways(ttl, es, if i < n then i else i - 1, n - 1);
      Always(ttl, es[..n - 1]);
      assert es[..n][..n - 1] == es[..n - 1];
      assert Follows(ttl, es, n - 1, LoginsCurrent);
      SuccessionKept(ttl, Run(ttl, es[..n - 1]), es[n - 1]);
    }
  }

  /** Once its successor was issued, an id is never live again. */
  lemma SuccessorEndsPredecessor(ttl: int, es: seq<Event>, i: nat, jti: Jti)
    requires i <= |es| && Obeys(ttl, es, 0, LoginsCurrent) && Succeeded(Run(ttl, es[..i]), jti)
    ensures !Alive(Run(ttl, es), jti)
  {
    SuccessionAlways(ttl, es, i, |es|);
    assert es[..|es|] == es;
    Always(ttl, es);
    assert Alive(Run(ttl, es), jti) ==> IsCurrent(Run(ttl, es), jti);
  }

  /** No continuation of the run by the rule brings an id back that had a successor after the first n events. */
  ghost predicate StaysEnded(ttl: int, es: seq<Event>, n: nat)
    requires n <= |es|
  {
    forall gs, jti | es <= gs && Obeys(ttl, gs, |es|, LoginsCurrent) && Succeeded(Run(ttl, es[..n]), jti) ::
      !Alive(Run(ttl, gs), jti)
  }

  lemma LoginCurrentStays(ttl: int, es: seq<Event>, e: Event, gs: seq<Event>, jti: Jti)
    requires Obeys(ttl, es, 0, LoginsCurrent) && LoginsCurrent(Run(ttl, es), e)
    requires es + [e] <= gs && Obeys(ttl, gs, |es| + 1, LoginsCurrent) && Succeeded(Run(ttl, es), jti)
    ensures !Alive(Run(ttl, gs), jti)
  {
    ObeysBefore(ttl, es, e, gs, LoginsCurrent);
    assert gs[..|es|] == es;
    SuccessorEndsPredecessor(ttl, gs, |es|, jti);
  }

  /** A login script whose id has a successor brings it back at once. */
  lemma SucceededComesBack(ttl: int, es: seq<Event>, e: Event)
    requires !LoginsCurrent(Run(ttl, es), e)
    ensures Alive(Run(ttl, es + [e]), e.command.jti)
  {
    Always(ttl, es);
    RunAppend(ttl, es, e);
  }

  /** This rule is exact too: an event obeys it if and only if nothing that had a successor comes back. */
  lemma LoginsCurrentExactly(ttl: int, es: seq<Event>, e: Event)
    requires Obeys(ttl, es, 0, LoginsCurrent)
    ensures LoginsCurrent(Run(ttl, es), e) <==> StaysEnded(ttl, es + [e], |es|)
  {
    assert (es + [e])[..|es|] == es;
    if LoginsCurrent(Run(ttl, es), e) {
      forall gs, jti | es + [e] <= gs && Obeys(ttl, gs, |es| + 1, LoginsCurrent) && Succeeded(Run(ttl, es), jti)
        ensures !Alive(Run(ttl, gs), jti)
      {
        LoginCurrentStays(ttl, es, e, gs, jti);
      }
    } else {
      SucceededComesBack(ttl, es, e);
      assert Obeys(ttl, es + [e], |es + [e]|, LoginsCurrent);
    }
  }

  /** The rules can be broken from the start: a login script that runs again revives its id. */
  lemma LoginAgainRotatesTwice(ttl: int) returns (es: seq<Event>)
    requires ttl > 0
    ensures RotatesAt(ttl, es, 3) && RotatesAt(ttl, es, 6) && es[3].command.presented == es[6].command.presented
  {
    var login, first, second := Replace(1, 7), Rotate(1, 7, 2, 7), Rotate(1, 7, 3, 7);
    es := [Send(login), Exec(login), Send(first), Exec(first), Exec(login), Send(second), Exec(second)];
    var s := FirstRotation(ttl, es, login, first);
    var s5 := LoginAgain(ttl, s, login, first);
    assert es[..4][..3] == es[..3] && es[..5][..4] == es[..4] && es[..6][..5] == es[..5];
    assert Run(ttl, es[..5]) == s5;
    assert FreshId(s5, second.jti);
    assert Run(ttl, es[..6]) == Apply(ttl, s5, Send(second));
  }

  lemma LoginAgain(ttl: int, s: State, login: Command, first: Command) returns (s5: State)
    requires ttl > 0 && login == Replace(1, 7) && first == Rotate(1, 7, 2, 7)
    requires s == State(0, map[1 := ttl], Some(Entry(7, ttl)), Some(Entry(1, ttl)), {login, first}, {1}, Some(1), [])
    ensures s5 == Apply(ttl, Apply(ttl, s, Exec(first)), Exec(login))
    ensures s5 == State(0, map[1 := ttl], Some(Entry(7, ttl)), Some(Entry(1, ttl)), {login, first}, {1, 2}, Some(1), [1])
  {
    var s4 := Apply(ttl, s, Exec(first));
    assert s4 == State(0, map[2 := ttl], Some(Entry(7, ttl)), Some(Entry(2, ttl)), {login, first}, {1, 2}, Some(2), [1]);
    s5 := Apply(ttl, s4, Exec(login));
  }

  lemma FirstRotation(ttl: int, es: seq<Event>, login: Command, first: Command) returns (s: State)
    requires ttl > 0 && login == Replace(1, 7) && first == Rotate(1, 7, 2, 7)
    requires |es| > 3 && es[..3] == [Send(login), Exec(login), Send(first)]
    ensures s == Run(ttl, es[..3]) && Rotates(ttl, s, first)
    ensures s == State(0, map[1 := ttl], Some(Entry(7, ttl)), Some(Entry(1, ttl)), {login, first}, {1}, Some(1), [])
  {
    assert es[..1] == [Send(login)] && es[..1][..0] == [] && es[..2][..1] == es[..1] && es[..3][..2] == es[..2];
    assert Run(ttl, es[..1]) == Apply(ttl, Init, Send(login)) == Init.(sent := {login});
    assert Run(ttl, es[..2]) == Script(ttl, Init.(sent := {login}), login);
    s := Run(ttl, es[..3]);
  }

  // ----- The store and the refresh call -----

  lemma RunAppend(ttl: int, es: seq<Event>, e: Event)
    ensures Run(ttl, es + [e]) == Apply(ttl, Run(ttl, es), e)
  {
    assert (es + [e])[..|es + [e]| - 1] == es;
  }

  class RefreshTokenStore {
    const ttl: int
    var state: State
    ghost var trace: seq<Event>

    ghost predicate Valid()
      reads this
    {
      state == Run(ttl, trace)
    }

    constructor (ttl: int)
      ensures Valid() && trace == [] && state == Init && this.ttl == ttl
    {
      this.ttl, state, trace := ttl, Init, [];
    }

    /** Time, the user's other calls, and scripts that run late or again. */
    method Interference()
      requires Valid()
      modifies this
      ensures Valid() && old(trace) <= trace && old(state.sent) <= state.sent
    {
    }

    /** The script reaches Redis at some time after it was sent. */
    method SendScript(c: Command)
      requires Valid() && FreshId(state, c.jti)
      modifies this
      ensures Valid() && trace == old(trace) + [Send(c)] && state == Apply(ttl, old(state), Send(c)) && c in state.sent
    {
      RunAppend(ttl, trace, Send(c));
      trace := trace + [Send(c)];
      state := state.(sent := state.sent + {c});
    }

    /** The script, command by command. */
    method RotateScript(c: Command) returns (result: int)
      requires Valid() && c.Rotate? && c in state.sent
      modifies this
      ensures Valid() && trace == old(trace) + [Exec(c)] && state == Apply(ttl, old(state), Exec(c))
      ensures result == 1 <==>
              && ttl > 0
              && old(state.session).Some? && state.now <= old(state.session).value.until
              && old(state.session).value.value == c.oldSession
              && c.presented in old(state.live) && state.now <= old(state.live)[c.presented]
              && (old(state.pointer).Some? && state.now <= old(state.pointer).value.until ==>
                    old(state.pointer).value.value == c.presented)
      ensures result == 1 ==>
                && state.session == Some(Entry(c.newSession, state.now + ttl))
                && state.pointer == Some(Entry(c.jti, state.now + ttl))
                && state.live == old(state.live)[c.jti := state.now + ttl] - {c.presented}
      ensures result != 1 ==>
                state.session == old(state.session) && state.pointer == old(state.pointer) && state.live == old(state.live)
    {
      RunAppend(ttl, trace, Exec(c));
      trace := trace + [Exec(c)];
      result := 0;
      if Get(state, state.session) != Some(c.oldSession) {
        return;
      }
      if !Alive(state, c.presented) {
        return;
      }
      var tracked := Get(state, state.pointer);
      if tracked.Some? && tracked.value != c.presented {
        return;
      }
      if ttl <= 0 {
        return -1;
      }
      var until := state.now + ttl;
      state := state.(live := state.live[c.jti := until]);
      state := state.(session := Some(Entry(c.newSession, until)));
      state := state.(pointer := Some(Entry(c.jti, until)));
      state := state.(live := state.live - {c.presented});
      state := state.(issued := state.issued + {c.jti}, last := Some(c.jti), rotated := state.rotated + [c.presented]);
      result := 1;
    }

    /** Login: the tracked refresh key goes, the new one comes. */
    method ReplaceScript(c: Command) returns (ok: bool)
      requires Valid() && c.Replace? && c in state.sent
      modifies this
      ensures Valid() && trace == old(trace) + [Exec(c)] && ok == (ttl > 0)
      ensures state == Apply(ttl, old(state), Exec(c))
      ensures ok ==> state.session == Some(Entry(c.newSession, state.now + ttl)) && state.pointer == Some(Entry(c.jti, state.now + ttl))
      ensures
        var tracked := old(state.pointer);
        var rest := if tracked.Some? && state.now <= tracked.value.until then old(state.live) - {tracked.value.value}
                    else old(state.live);
        state.live == if ok then rest[c.jti := state.now + ttl] else rest
    {
      RunAppend(ttl, trace, Exec(c));
      trace := trace + [Exec(c)];
      var tracked := Get(state, state.pointer);
      if tracked.Some? {
        state := state.(live := state.live - {tracked.value});
      }
      if ttl <= 0 {
        return false;
      }
      var until := state.now + ttl;
      state := state.(live := state.live[c.jti := until]);
      state := state.(session := Some(Entry(c.newSession, until)));
      state := state.(pointer := Some(Entry(c.jti, until)));
      state := state.(issued := state.issued + {c.jti}, last := Some(c.jti));
      ok := true;
    }

    /** Refresh: the session must be active, then the tokens rotate; the session id stays. */
    method Refresh(presented: Jti, presentedSession: SessionId, outcome: Outcome) returns (issued: Option<Jti>)
      requires Valid()
      modifies this
      ensures Valid() && old(trace) <= trace
      ensures issued.Some? ==> IsCurrent(state, issued.value) && Alive(state, issued.value) && !Alive(state, presented)
      ensures issued.Some? ==>
                && Get(state, state.session) == Some(presentedSession)
                && RotateChecks(state, issued.value, presentedSession)
    {
      issued := None;
      if Get(state, state.session) != Some(presentedSession) {
        return;
      }
      Interference();
      var jti := Fresh(state.sent);
      var c := Rotate(presented, presentedSession, jti, presentedSession);
      SendScript(c);
      Interference();
      if outcome.NotRan? {
        return;
      }
      var result := RotateScript(c);
      if outcome.Ran? && result == 1 {
        issued := Some(jti);
        UsedUp(ttl, trace, c);
      }
    }
  }

  /** Right after a rotation its id is the live one and the presented id is not. */
  lemma UsedUp(ttl: int, es: seq<Event>, c: Command)
    requires es != [] && es[|es| - 1] == Exec(c)
    requires c in Run(ttl, es[..|es| - 1]).sent && Rotates(ttl, Run(ttl, es[..|es| - 1]), c)
    ensures IsCurrent(Run(ttl, es), c.jti) && Alive(Run(ttl, es), c.jti) && !Alive(Run(ttl, es), c.presented)
    ensures RotateChecks(Run(ttl, es), c.jti, c.newSession)
  {
    var before := Run(ttl, es[..|es| - 1]);
    Always(ttl, es);
    assert Run(ttl, es) == Script(ttl, before, c);
  }

  /** uuid.NewString: an id never made before. */
  method Fresh(sent: set<Command>) returns (jti: Jti)
    ensures forall c | c in sent :: c.jti != jti
  {
    jti := 0;
    var rest := sent;
    while rest != {}
      invariant rest <= sent
      invariant forall c | c in sent && c !in rest :: c.jti < jti
      decreases |rest|
    {
      var c :| c in rest;
      jti := if c.jti < jti then jti else c.jti + 1;
      rest := rest - {c};
    }
  }
}
