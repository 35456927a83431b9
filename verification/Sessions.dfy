/** Refresh-token rotation and sessions, as a state machine whose reads and commits interleave.

    The scheme is the one of section 4.14.2 of RFC 9700: a refresh token is replaced on use, and using a
    replaced one revokes its family. A token stands for its own hash, and every session, family and token is
    drawn from one supply of fresh numbers. */
module Sessions {
  import opened Sums

  type UserId = string

  /** A signed refresh token with the claims it carries. */
  datatype Token = Token(serial: nat, user: UserId, sid: nat, fam: nat)

  datatype Session = Session(user: UserId, current: Token, family: nat, revoked: bool)

  datatype Audit = Audit(family: nat, sid: nat)

  /** Requests between a read and a later write. */
  datatype Request =
    | Checked(token: Token)                              // the audit lookup found nothing
    | Rotating(token: Token, sid: nat, family: nat)      // the session lookup found a live session
    | Purging(user: UserId, families: set<nat>)          // the families to wipe were collected

  datatype Auth = Auth(
    sessions: map<nat, Session>,
    audits: map<Token, Audit>,
    next: nat,
    inflight: multiset<Request>,
    rotated: seq<Token>)

  datatype Label =
    | Issue(user: UserId)
    | Present(token: Token)
    | Find(token: Token, idle: bool)
    | Rotate(token: Token, sid: nat, family: nat)
    | RevokeOne(sid: nat, user: UserId)
    | RevokeAll(user: UserId)
    | RevokeOthers(user: UserId, sid: nat)
    | StartPurge(user: UserId)
    | Purge(user: UserId, families: set<nat>)

  // ----- updates of many sessions -----

  function RevokeFamily(ss: map<nat, Session>, fam: nat): map<nat, Session> {
    map s | s in ss :: if ss[s].family == fam then ss[s].(revoked := true) else ss[s]
  }

  /** Revokes a user's sessions except `keep`. */
  function RevokeUser(ss: map<nat, Session>, user: UserId, keep: Option<nat>): map<nat, Session> {
    map s | s in ss :: if ss[s].user == user && Some(s) != keep then ss[s].(revoked := true) else ss[s]
  }

  /** The session whose current token is `token`; a token names its session. */
  function Lookup(ss: map<nat, Session>, token: Token): Option<nat> {
    if token.sid in ss && ss[token.sid].current == token then Some(token.sid) else None
  }

  // ----- steps -----

  function DoIssue(a: Auth, user: UserId): Auth {
    var sid, family := a.next, a.next + 1;
    var token := Token(a.next + 2, user, sid, family);
    a.(sessions := RevokeUser(a.sessions[sid := Session(user, token, family, false)], user, Some(sid)),
       next := a.next + 3)
  }

  function DoPresent(a: Auth, token: Token): Auth {
    if token in a.audits then a.(sessions := RevokeFamily(a.sessions, a.audits[token].family))
    else a.(inflight := a.inflight + multiset{Checked(token)})
  }

  function DoFind(a: Auth, token: Token, idle: bool): Auth {
    var b := a.(inflight := a.inflight - multiset{Checked(token)});
    match Lookup(a.sessions, token)
    case None => b.(sessions := RevokeFamily(a.sessions, token.fam))
    case Some(s) =>
      if a.sessions[s].revoked then b.(sessions := RevokeFamily(a.sessions, token.fam))
      else if idle then b.(sessions := a.sessions[s := a.sessions[s].(revoked := true)])
      else b.(inflight := b.inflight + multiset{Rotating(token, s, a.sessions[s].family)})
  }

  /** The rotation transaction: the unique index on audited hashes and the missing row both abort it. */
  function DoRotate(a: Auth, token: Token, sid: nat, family: nat): Auth {
    var b := a.(inflight := a.inflight - multiset{Rotating(token, sid, family)});
    if token in a.audits || sid !in a.sessions then b
    else
      var newer := Token(a.next, a.sessions[sid].user, sid, family);
      b.(audits := a.audits[token := Audit(family, sid)],
         sessions := a.sessions[sid := a.sessions[sid].(current := newer)],
         next := a.next + 1,
         rotated := a.rotated + [token])
  }

  function DoPurge(a: Auth, user: UserId, families: set<nat>): Auth {
    a.(inflight := a.inflight - multiset{Purging(user, families)},
       audits := map t | t in a.audits && a.audits[t].family !in families :: a.audits[t],
       sessions := map s | s in a.sessions && a.sessions[s].user != user :: a.sessions[s])
  }

  function Families(ss: map<nat, Session>, user: UserId): set<nat> {
    set s | s in ss && ss[s].user == user :: ss[s].family
  }

  function Exec(a: Auth, l: Label): Auth {
    match l
    case Issue(user) => DoIssue(a, user)
    case Present(token) => DoPresent(a, token)
    case Find(token, idle) => if Checked(token) in a.inflight then DoFind(a, token, idle) else a
    case Rotate(token, sid, family) =>
      if Rotating(token, sid, family) in a.inflight then DoRotate(a, token, sid, family) else a
    case RevokeOne(sid, user) =>
      if sid in a.sessions && a.sessions[sid].user == user then
        a.(sessions := a.sessions[sid := a.sessions[sid].(revoked := true)])
      else a
    case RevokeAll(user) => a.(sessions := RevokeUser(a.sessions, user, None))
    case RevokeOthers(user, sid) => a.(sessions := RevokeUser(a.sessions, user, Some(sid)))
    case StartPurge(user) => a.(inflight := a.inflight + multiset{Purging(user, Families(a.sessions, user))})
    case Purge(user, families) =>
      if Purging(user, families) in a.inflight then DoPurge(a, user, families) else a
  }

  function Run(a: Auth, labels: seq<Label>): Auth
    decreases |labels|
  {
    if labels == [] then a else Run(Exec(a, labels[0]), labels[1..])
  }

  const EMPTY := Auth(map[], map[], 0, multiset{}, [])

  // ----- what every step keeps -----

  ghost predicate SessionShape(a: Auth, s: nat)
    requires s in a.sessions
  {
    var x := a.sessions[s];
    && s < a.next && x.family < a.next && x.current.serial < a.next
    && x.current.sid == s && x.current.fam == x.family && x.current.user == x.user
  }

  /** `t` has been replaced: its session is gone or a newer token is current there, and no other session is
      of its family. */
  ghost predicate Replaced(a: Auth, t: Token) {
    && (t.sid in a.sessions ==> t.serial < a.sessions[t.sid].current.serial && a.sessions[t.sid].family == t.fam)
    && (forall s :: s in a.sessions && a.sessions[s].family == t.fam ==> s == t.sid)
  }

  ghost predicate RequestShape(a: Auth, r: Request) {
    match r
    case Checked(_) => true
    case Rotating(t, sid, fam) =>
      && t.sid == sid && t.fam == fam && sid < a.next && fam < a.next
      && (sid in a.sessions ==> a.sessions[sid].family == fam && (a.sessions[sid].current == t || t in a.audits))
    case Purging(user, families) =>
      forall s :: s in a.sessions && a.sessions[s].family in families ==> a.sessions[s].user == user
  }

  ghost predicate Bounded(a: Auth) {
    && (forall r :: r in a.inflight && r.Purging? ==> forall f :: f in r.families ==> f < a.next)
    && (forall t :: t in a.audits ==> t.sid < a.next && t.fam < a.next)
    && (forall i :: 0 <= i < |a.rotated| ==> a.rotated[i].sid < a.next && a.rotated[i].fam < a.next)
  }

  ghost predicate Inv(a: Auth) {
    && Bounded(a)
    && (forall s :: s in a.sessions ==> SessionShape(a, s))
    && (forall s, u :: s in a.sessions && u in a.sessions && a.sessions[s].family == a.sessions[u].family ==> s == u)
    && (forall t :: t in a.audits ==> a.audits[t] == Audit(t.fam, t.sid) && Replaced(a, t))
    && (forall i :: 0 <= i < |a.rotated| ==>
          Replaced(a, a.rotated[i]) && (a.rotated[i].sid in a.sessions ==> a.rotated[i] in a.audits))
    && Distinct(a.rotated)
    && (forall r :: r in a.inflight ==> RequestShape(a, r))
  }

  ghost predicate OneLive(a: Auth) {
    forall s, u ::
      (s in a.sessions && u in a.sessions && a.sessions[s].user == a.sessions[u].user
       && !a.sessions[s].revoked && !a.sessions[u].revoked) ==> s == u
  }

  /** No session of this family is usable, and none will be. */
  ghost predicate Dead(a: Auth, fam: nat) {
    fam < a.next && forall s :: s in a.sessions && a.sessions[s].family == fam ==> a.sessions[s].revoked
  }

  /** Same sessions up to revocation. */
  ghost predicate OnlyRevokes(ss: map<nat, Session>, tt: map<nat, Session>) {
    && tt.Keys == ss.Keys
    && forall s :: s in ss ==> tt[s].(revoked := ss[s].revoked) == ss[s] && (ss[s].revoked ==> tt[s].revoked)
  }

  lemma RevokingKeepsInv(a: Auth, b: Auth)
    requires Inv(a) && OnlyRevokes(a.sessions, b.sessions)
    requires b == a.(sessions := b.sessions, inflight := b.inflight)
    requires forall r :: r in b.inflight ==> r in a.inflight
    ensures Inv(b)
  {
    forall s | s in b.sessions
      ensures SessionShape(b, s)
    {
      assert SessionShape(a, s);
    }
    forall t | Replaced(a, t)
      ensures Replaced(b, t)
    {
    }
    forall r | r in b.inflight
      ensures RequestShape(b, r)
    {
      assert RequestShape(a, r);
    }
  }

  /** The issued session is new, and the others are as before up to revocation. */
  ghost predicate Issued(a: Auth, b: Auth) {
    && b == a.(sessions := b.sessions, next := a.next + 3)
    && b.sessions.Keys == a.sessions.Keys + {a.next}
    && b.sessions[a.next].family == a.next + 1 && SessionShape(b, a.next)
    && forall s :: s in a.sessions && s != a.next ==>
         b.sessions[s].(revoked := a.sessions[s].revoked) == a.sessions[s]
  }

  lemma IssueKeepsSessions(a: Auth, b: Auth)
    requires Inv(a) && Issued(a, b)
    ensures a.next !in a.sessions
    ensures forall s :: s in b.sessions ==> SessionShape(b, s)
    ensures forall s, u :: s in b.sessions && u in b.sessions && b.sessions[s].family == b.sessions[u].family ==> s == u
  {
    assert a.next in a.sessions ==> SessionShape(a, a.next);
    forall s | s in b.sessions && s != a.next
      ensures SessionShape(b, s) && b.sessions[s].family == a.sessions[s].family < a.next
    {
      assert SessionShape(a, s);
    }
  }

  lemma IssueKeepsReplaced(a: Auth, b: Auth, t: Token)
    requires Issued(a, b) && a.next !in a.sessions && Replaced(a, t) && t.sid < a.next && t.fam < a.next
    ensures Replaced(b, t)
  {
  }

  lemma IssueKeepsRequest(a: Auth, b: Auth, r: Request)
    requires Issued(a, b) && a.next !in a.sessions && RequestShape(a, r)
    requires r.Purging? ==> forall f :: f in r.families ==> f < a.next
    ensures RequestShape(b, r)
  {
  }

  lemma IssueKeepsInv(a: Auth, user: UserId)
    requires Inv(a)
    ensures Inv(DoIssue(a, user))
  {
    var b := DoIssue(a, user);
    IssueKeepsSessions(a, b);
    forall t | t in b.audits
      ensures Replaced(b, t)
    {
      IssueKeepsReplaced(a, b, t);
    }
    forall i | 0 <= i < |b.rotated|
      ensures Replaced(b, b.rotated[i])
    {
      IssueKeepsReplaced(a, b, a.rotated[i]);
    }
    forall r | r in b.inflight
      ensures RequestShape(b, r)
    {
      IssueKeepsRequest(a, b, r);
    }
  }

  lemma RotateKeepsInv(a: Auth, token: Token, sid: nat, family: nat)
    requires Inv(a) && Rotating(token, sid, family) in a.inflight
    ensures Inv(DoRotate(a, token, sid, family))
  {
    var b := DoRotate(a, token, sid, family);
    assert RequestShape(a, Rotating(token, sid, family));
    assert sid in a.sessions ==> SessionShape(a, sid);
    if token in a.audits || sid !in a.sessions {
      RevokingKeepsInv(a, b);
    } else {
      RotationKeepsInv(a, b, token, sid);
    }
  }

  /** A committed rotation of the current token of `sid`. */
  ghost predicate Rotation(a: Auth, b: Auth, token: Token, sid: nat) {
    && sid in a.sessions && a.sessions[sid].current == token && SessionShape(a, sid)
    && b.sessions == a.sessions[sid := a.sessions[sid].(current := Token(a.next, token.user, sid, token.fam))]
    && b.audits == a.audits[token := Audit(token.fam, sid)] && b.next == a.next + 1
    && b.rotated == a.rotated + [token] && b.inflight <= a.inflight
  }

  lemma RotationKeepsReplaced(a: Auth, b: Auth, token: Token, sid: nat, t: Token)
    requires Rotation(a, b, token, sid) && Replaced(a, t)
    ensures Replaced(b, t) && t != token
  {
  }

  lemma RotationKeepsSessions(a: Auth, b: Auth, token: Token, sid: nat)
    requires Rotation(a, b, token, sid) && Inv(a)
    ensures forall s :: s in b.sessions ==> SessionShape(b, s)
    ensures Replaced(b, token)
  {
    forall s | s in b.sessions
      ensures SessionShape(b, s)
    {
      assert SessionShape(a, s);
    }
  }

  lemma RotationKeepsRequest(a: Auth, b: Auth, token: Token, sid: nat, r: Request)
    requires Rotation(a, b, token, sid) && RequestShape(a, r)
    ensures RequestShape(b, r)
  {
  }

  lemma RotatedIsReplaced(a: Auth, b: Auth, token: Token, sid: nat)
    requires Inv(a) && Rotation(a, b, token, sid)
    ensures token in b.audits && b.audits[token] == Audit(token.fam, token.sid) && Replaced(b, token)
    ensures token.sid == sid < a.next && token.fam == a.sessions[sid].family < a.next
  {
    assert SessionShape(a, sid);
  }

  lemma RotationKeepsInv(a: Auth, b: Auth, token: Token, sid: nat)
    requires Inv(a) && Rotation(a, b, token, sid)
    ensures Inv(b)
  {
    hide Replaced, RequestShape, SessionShape;
    RotationKeepsSessions(a, b, token, sid);
    RotatedIsReplaced(a, b, token, sid);
    forall t | t in b.audits
      ensures b.audits[t] == Audit(t.fam, t.sid) && Replaced(b, t)
    {
      if t != token {
        RotationKeepsReplaced(a, b, token, sid, t);
      }
    }
    forall i | 0 <= i < |a.rotated|
      ensures Replaced(b, a.rotated[i]) && a.rotated[i] != token
    {
      RotationKeepsReplaced(a, b, token, sid, a.rotated[i]);
    }
    forall r | r in b.inflight
      ensures RequestShape(b, r)
    {
      RotationKeepsRequest(a, b, token, sid, r);
    }
  }

  lemma PurgeKeepsInv(a: Auth, user: UserId, families: set<nat>)
    requires Inv(a) && Purging(user, families) in a.inflight
    ensures Inv(DoPurge(a, user, families))
  {
    var b := DoPurge(a, user, families);
    assert RequestShape(a, Purging(user, families));
    forall s | s in b.sessions
      ensures SessionShape(b, s) && b.sessions[s].family !in families
    {
      assert SessionShape(a, s);
    }
    forall t | Replaced(a, t)
      ensures Replaced(b, t)
    {
    }
    forall t | t in a.audits && t.sid in b.sessions
      ensures t in b.audits
    {
      assert Replaced(a, t);
    }
    forall r | r in b.inflight
      ensures RequestShape(b, r)
    {
      assert RequestShape(a, r);
    }
  }

  lemma LaunchKeepsInv(a: Auth, r: Request)
    requires Inv(a) && RequestShape(a, r)
    requires r.Purging? ==> forall f :: f in r.families ==> f < a.next
    ensures Inv(a.(inflight := a.inflight + multiset{r}))
  {
    var b := a.(inflight := a.inflight + multiset{r});
    forall s | s in b.sessions
      ensures SessionShape(b, s)
    {
      assert SessionShape(a, s);
    }
    forall t | Replaced(a, t)
      ensures Replaced(b, t)
    {
    }
    forall q | q in b.inflight
      ensures RequestShape(b, q)
    {
      assert q != r ==> RequestShape(a, q);
    }
  }

  lemma FindKeepsInv(a: Auth, token: Token, idle: bool)
    requires Inv(a) && Checked(token) in a.inflight
    ensures Inv(DoFind(a, token, idle))
  {
    var found := Lookup(a.sessions, token);
    if found.Some? && !a.sessions[found.value].revoked && !idle {
      FoundKeepsInv(a, token, found.value);
    } else {
      RevokingKeepsInv(a, DoFind(a, token, idle));
    }
  }

  lemma FoundKeepsInv(a: Auth, token: Token, s: nat)
    requires Inv(a) && s in a.sessions && a.sessions[s].current == token
    ensures Inv(a.(inflight := a.inflight - multiset{Checked(token)} + multiset{Rotating(token, s, a.sessions[s].family)}))
  {
    var b := a.(inflight := a.inflight - multiset{Checked(token)});
    RevokingKeepsInv(a, b);
    assert SessionShape(a, s);
    LaunchKeepsInv(b, Rotating(token, s, a.sessions[s].family));
  }

  lemma StartPurgeKeepsInv(a: Auth, user: UserId)
    requires Inv(a)
    ensures Inv(a.(inflight := a.inflight + multiset{Purging(user, Families(a.sessions, user))}))
  {
    var fams := Families(a.sessions, user);
    forall f | f in fams
      ensures f < a.next
    {
      var s :| s in a.sessions && a.sessions[s].user == user && a.sessions[s].family == f;
      assert SessionShape(a, s);
    }
    LaunchKeepsInv(a, Purging(user, fams));
  }

  lemma PresentKeepsInv(a: Auth, token: Token)
    requires Inv(a)
    ensures Inv(DoPresent(a, token))
  {
    if token in a.audits {
      RevokingKeepsInv(a, DoPresent(a, token));
    } else {
      LaunchKeepsInv(a, Checked(token));
    }
  }

  lemma RevokeKeepsInv(a: Auth, l: Label)
    requires Inv(a) && (l.RevokeOne? || l.RevokeAll? || l.RevokeOthers?)
    ensures Inv(Exec(a, l))
  {
    hide Inv, RevokeUser;
    RevokesOnly(a, l);
    RevokingKeepsInv(a, Exec(a, l));
  }

  lemma RevokesOnly(a: Auth, l: Label)
    requires l.RevokeOne? || l.RevokeAll? || l.RevokeOthers?
    ensures OnlyRevokes(a.sessions, Exec(a, l).sessions)
  {
  }

  lemma StepKeepsInv(a: Auth, l: Label)
    requires Inv(a)
    ensures Inv(Exec(a, l))
  {
    hide Inv, DoIssue, DoPresent, DoFind, DoRotate, DoPurge, RevokeUser, Families;
    match l
    case Issue(user) => IssueKeepsInv(a, user);
    case Present(token) => PresentKeepsInv(a, token);
    case Find(token, idle) =>
      if Checked(token) in a.inflight {
        FindKeepsInv(a, token, idle);
      }
    case Rotate(token, sid, family) =>
      if Rotating(token, sid, family) in a.inflight {
        RotateKeepsInv(a, token, sid, family);
      }
    case StartPurge(user) => StartPurgeKeepsInv(a, user);
    case Purge(user, families) =>
      if Purging(user, families) in a.inflight {
        PurgeKeepsInv(a, user, families);
      }
    case _ => RevokeKeepsInv(a, l);
  }

  lemma {:induction false} RunKeepsInv(a: Auth, labels: seq<Label>)
    requires Inv(a)
    ensures Inv(Run(a, labels))
    decreases |labels|
  {
    if labels != [] {
      StepKeepsInv(a, labels[0]);
      RunKeepsInv(Exec(a, labels[0]), labels[1..]);
    }
  }

  // ----- revocation is for ever, and one session per user -----

  /** No step brings a session back: sessions appear only new, and revoked ones stay revoked. */
  ghost predicate NeverRevives(a: Auth, b: Auth) {
    && a.next <= b.next
    && forall s :: s in b.sessions ==>
         if s in a.sessions then
           && b.sessions[s].user == a.sessions[s].user && b.sessions[s].family == a.sessions[s].family
           && (a.sessions[s].revoked ==> b.sessions[s].revoked)
         else s >= a.next && b.sessions[s].family >= a.next
  }

  lemma StepNeverRevives(a: Auth, l: Label)
    requires Inv(a)
    ensures NeverRevives(a, Exec(a, l))
  {
    if l.Issue? {
      assert a.next in a.sessions ==> SessionShape(a, a.next);
    } else {
      StepOnlyRevokes(a, l);
    }
  }

  lemma StepOnlyRevokes(a: Auth, l: Label)
    requires !l.Issue?
    ensures var b := Exec(a, l);
            && a.next <= b.next
            && Fewer(a.sessions, b.sessions)
  {
    hide DoFind, DoRotate, DoPurge, DoPresent, Families, Fewer;
    SameIsFewer(a.sessions);
    match l
    case Find(token, idle) =>
      if Checked(token) in a.inflight {
        FindOnlyRevokes(a, token, idle);
      }
    case Rotate(token, sid, family) => RotateOnlyRevokes(a, token, sid, family);
    case Purge(user, families) => PurgeOnlyRevokes(a, user, families);
    case Present(token) => PresentOnlyRevokes(a, token);
    case RevokeOne(sid, user) => RevokeOneOnlyRevokes(a, sid, user);
    case RevokeAll(user) => RevokeUserOnlyRevokes(a.sessions, user, None);
    case RevokeOthers(user, sid) => RevokeUserOnlyRevokes(a.sessions, user, Some(sid));
    case _ =>
  }

  lemma SameIsFewer(ss: map<nat, Session>)
    ensures Fewer(ss, ss)
  {
  }

  lemma RotateOnlyRevokes(a: Auth, token: Token, sid: nat, family: nat)
    ensures Fewer(a.sessions, DoRotate(a, token, sid, family).sessions) && a.next <= DoRotate(a, token, sid, family).next
  {
  }

  lemma PurgeOnlyRevokes(a: Auth, user: UserId, families: set<nat>)
    ensures Fewer(a.sessions, DoPurge(a, user, families).sessions) && a.next == DoPurge(a, user, families).next
  {
  }

  lemma PresentOnlyRevokes(a: Auth, token: Token)
    ensures Fewer(a.sessions, DoPresent(a, token).sessions) && a.next == DoPresent(a, token).next
  {
  }

  lemma RevokeOneOnlyRevokes(a: Auth, sid: nat, user: UserId)
    ensures Fewer(a.sessions, Exec(a, RevokeOne(sid, user)).sessions) && a.next == Exec(a, RevokeOne(sid, user)).next
  {
  }

  lemma RevokeUserOnlyRevokes(ss: map<nat, Session>, user: UserId, keep: Option<nat>)
    ensures Fewer(ss, RevokeUser(ss, user, keep))
  {
  }

  lemma FindOnlyRevokes(a: Auth, token: Token, idle: bool)
    ensures Fewer(a.sessions, DoFind(a, token, idle).sessions) && DoFind(a, token, idle).next == a.next
  {
    hide RevokeFamily, Fewer;
    SameIsFewer(a.sessions);
    FamilyOnlyRevokes(a.sessions, token.fam);
    if token.sid in a.sessions {
      OneOnlyRevokes(a.sessions, token.sid);
    }
  }

  lemma FamilyOnlyRevokes(ss: map<nat, Session>, fam: nat)
    ensures Fewer(ss, RevokeFamily(ss, fam))
  {
  }

  lemma OneOnlyRevokes(ss: map<nat, Session>, s: nat)
    requires s in ss
    ensures Fewer(ss, ss[s := ss[s].(revoked := true)])
  {
  }

  /** Sessions may be gone or revoked, never new or revived. */
  ghost predicate Fewer(ss: map<nat, Session>, tt: map<nat, Session>) {
    forall s :: s in tt ==>
      && s in ss
      && tt[s].user == ss[s].user && tt[s].family == ss[s].family
      && (ss[s].revoked ==> tt[s].revoked)
  }

  lemma {:induction false} RunKeepsDead(a: Auth, labels: seq<Label>, fam: nat)
    requires Dead(a, fam) && Inv(a)
    ensures Dead(Run(a, labels), fam)
    decreases |labels|
  {
    if labels != [] {
      StepKeepsInv(a, labels[0]);
      StepNeverRevives(a, labels[0]);
      RunKeepsDead(Exec(a, labels[0]), labels[1..], fam);
    }
  }

  lemma StepKeepsOneLive(a: Auth, l: Label)
    requires OneLive(a) && Inv(a)
    ensures OneLive(Exec(a, l))
  {
    StepNeverRevives(a, l);
    var b := Exec(a, l);
    if l.Issue? {
      forall s, u | s in b.sessions && u in b.sessions && b.sessions[s].user == b.sessions[u].user
                    && !b.sessions[s].revoked && !b.sessions[u].revoked
        ensures s == u
      {
      }
    } else {
      StepOnlyRevokes(a, l);
    }
  }

  lemma {:induction false} RunKeepsOneLive(a: Auth, labels: seq<Label>)
    requires OneLive(a) && Inv(a)
    ensures OneLive(Run(a, labels))
    decreases |labels|
  {
    if labels != [] {
      StepKeepsInv(a, labels[0]);
      StepKeepsOneLive(a, labels[0]);
      RunKeepsOneLive(Exec(a, labels[0]), labels[1..]);
    }
  }

  // ----- theorems -----

  /** Under every interleaving of reads and commits, revocations and purges, each refresh token rotates at
      most once. */
  lemma TokensRotateAtMostOnce(labels: seq<Label>)
    ensures Distinct(Run(EMPTY, labels).rotated)
  {
    RunKeepsInv(EMPTY, labels);
  }

  /** Current tokens are distinct, and none of them is audited or has been rotated. */
  lemma CurrentTokensAreFresh(labels: seq<Label>, s: nat, u: nat)
    requires var a := Run(EMPTY, labels); s in a.sessions && u in a.sessions
    ensures var a := Run(EMPTY, labels);
            && (a.sessions[s].current == a.sessions[u].current ==> s == u)
            && a.sessions[s].current !in a.audits
            && a.sessions[s].current !in a.rotated
  {
    RunKeepsInv(EMPTY, labels);
    var a := Run(EMPTY, labels);
    assert SessionShape(a, s) && SessionShape(a, u);
    assert !Replaced(a, a.sessions[s].current);
  }

  /** Each user has at most one unrevoked session. */
  lemma OneLiveSessionPerUser(labels: seq<Label>)
    ensures OneLive(Run(EMPTY, labels))
  {
    RunKeepsOneLive(EMPTY, labels);
  }

  lemma ReuseKillsFamily(a: Auth, token: Token)
    requires Inv(a) && token in a.rotated
    ensures Dead(Exec(a, Present(token)), token.fam)
  {
    assert Replaced(a, token);
  }

  /** Once a token has been rotated, presenting it again leaves its family without a usable session, in that
      state and in every later one - also when a purge has meanwhile wiped the audit row. */
  lemma ReuseKillsFamilyForEver(before: seq<Label>, token: Token, after: seq<Label>)
    requires token in Run(EMPTY, before).rotated
    ensures Dead(Run(Exec(Run(EMPTY, before), Present(token)), after), token.fam)
  {
    RunKeepsInv(EMPTY, before);
    var a := Run(EMPTY, before);
    ReuseKillsFamily(a, token);
    StepKeepsInv(a, Present(token));
    RunKeepsDead(Exec(a, Present(token)), after, token.fam);
  }

  /** What one refresh does when nothing interferes. */
  function Refresh(a: Auth, t: Token, idle: bool): Auth {
    if t in a.audits then a.(sessions := RevokeFamily(a.sessions, a.audits[t].family))
    else if t.sid !in a.sessions || a.sessions[t.sid].current != t || a.sessions[t.sid].revoked then
      a.(sessions := RevokeFamily(a.sessions, t.fam))
    else if idle then a.(sessions := a.sessions[t.sid := a.sessions[t.sid].(revoked := true)])
    else
      var x := a.sessions[t.sid];
      Auth(a.sessions[t.sid := x.(current := Token(a.next, x.user, t.sid, x.family))],
           a.audits[t := Audit(x.family, t.sid)], a.next + 1, a.inflight, a.rotated + [t])
  }

  predicate Refreshable(a: Auth, t: Token) {
    t !in a.audits && t.sid in a.sessions && a.sessions[t.sid].current == t && !a.sessions[t.sid].revoked
  }

  function FamilyAt(a: Auth, t: Token): nat {
    if t.sid in a.sessions then a.sessions[t.sid].family else 0
  }

  lemma AddRemove(m: multiset<Request>, r: Request)
    ensures m + multiset{r} - multiset{r} == m
  {
  }

  lemma RefreshFinds(a: Auth, t: Token, idle: bool)
    requires t !in a.audits
    ensures DoFind(DoPresent(a, t), t, idle) ==
            if Refreshable(a, t) && !idle then
              a.(inflight := a.inflight + multiset{Rotating(t, t.sid, a.sessions[t.sid].family)})
            else Refresh(a, t, idle)
  {
    AddRemove(a.inflight, Checked(t));
  }

  lemma RefreshRotates(a: Auth, t: Token)
    requires Refreshable(a, t)
    ensures var fam := a.sessions[t.sid].family;
            DoRotate(a.(inflight := a.inflight + multiset{Rotating(t, t.sid, fam)}), t, t.sid, fam) == Refresh(a, t, false)
  {
    AddRemove(a.inflight, Rotating(t, t.sid, a.sessions[t.sid].family));
  }

  lemma AuditedRefresh(a: Auth, t: Token, idle: bool, go: Label)
    requires t in a.audits && Checked(t) !in a.inflight
    requires go.Rotate? && Rotating(go.token, go.sid, go.family) !in a.inflight
    ensures Exec(Exec(Exec(a, Present(t)), Find(t, idle)), go) == Refresh(a, t, idle)
  {
    var b := Exec(a, Present(t));
    assert b == Refresh(a, t, idle) && b.inflight == a.inflight;
    assert Exec(b, Find(t, idle)) == b;
  }

  lemma PresentedIsChecked(a: Auth, t: Token, idle: bool)
    requires t !in a.audits
    ensures Exec(Exec(a, Present(t)), Find(t, idle)) == DoFind(DoPresent(a, t), t, idle)
  {
    assert Checked(t) in DoPresent(a, t).inflight;
  }

  lemma FoundRotates(c: Auth, t: Token, sid: nat, family: nat)
    requires Rotating(t, sid, family) in c.inflight
    ensures Exec(c, Rotate(t, sid, family)) == DoRotate(c, t, sid, family)
  {
  }

  lemma NothingToRotate(c: Auth, t: Token, sid: nat, family: nat)
    requires Rotating(t, sid, family) !in c.inflight
    ensures Exec(c, Rotate(t, sid, family)) == c
  {
  }

  /** An undisturbed refresh is its three steps in a row. */
  lemma RefreshIsThreeSteps(a: Auth, t: Token, idle: bool)
    requires Checked(t) !in a.inflight && Rotating(t, t.sid, FamilyAt(a, t)) !in a.inflight
    ensures Run(a, [Present(t), Find(t, idle), Rotate(t, t.sid, FamilyAt(a, t))]) == Refresh(a, t, idle)
  {
    RunThree(a, Present(t), Find(t, idle), Rotate(t, t.sid, FamilyAt(a, t)));
    if t in a.audits {
      AuditedRefresh(a, t, idle, Rotate(t, t.sid, FamilyAt(a, t)));
    } else {
      PresentedIsChecked(a, t, idle);
      RefreshFinds(a, t, idle);
      if Refreshable(a, t) && !idle {
        RefreshRotates(a, t);
        FoundRotates(a.(inflight := a.inflight + multiset{Rotating(t, t.sid, FamilyAt(a, t))}), t, t.sid, FamilyAt(a, t));
      } else {
        NothingToRotate(Refresh(a, t, idle), t, t.sid, FamilyAt(a, t));
      }
    }
  }

  /** The current token of every live session can be refreshed. */
  lemma CurrentTokenIsRefreshable(labels: seq<Label>, s: nat)
    requires s in Run(EMPTY, labels).sessions && !Run(EMPTY, labels).sessions[s].revoked
    ensures var a := Run(EMPTY, labels); Refreshable(a, a.sessions[s].current)
  {
    CurrentTokensAreFresh(labels, s, s);
    RunKeepsInv(EMPTY, labels);
    assert SessionShape(Run(EMPTY, labels), s);
  }

  lemma RunThree(a: Auth, x: Label, y: Label, z: Label)
    ensures Run(a, [x, y, z]) == Exec(Exec(Exec(a, x), y), z)
  {
    assert [x, y, z][1..] == [y, z] && [y, z][1..] == [z] && [z][1..] == [];
    assert Run(Exec(a, x), [y, z]) == Run(Exec(Exec(a, x), y), [z]);
  }

  /** A user's unrevoked sessions, except `keep`. */
  function LiveOf(ss: map<nat, Session>, user: UserId, keep: Option<nat>): set<nat> {
    set s | s in ss && ss[s].user == user && !ss[s].revoked && Some(s) != keep
  }

  /** Exactly the sessions of a family become revoked. */
  ghost predicate FamilyEnds(ss: map<nat, Session>, tt: map<nat, Session>, fam: nat) {
    && tt.Keys == ss.Keys
    && forall s :: s in ss ==> tt[s] == if ss[s].family == fam then ss[s].(revoked := true) else ss[s]
  }

  /** Exactly one session becomes revoked. */
  ghost predicate OneEnds(ss: map<nat, Session>, tt: map<nat, Session>, sid: nat) {
    && tt.Keys == ss.Keys
    && forall s :: s in ss ==> tt[s] == if s == sid then ss[s].(revoked := true) else ss[s]
  }

  /** A purge takes the user's sessions and the audit rows of the families it collected away, and leaves everything else. */
  lemma PurgeWipes(a: Auth, user: UserId, families: set<nat>)
    requires Purging(user, families) in a.inflight
    ensures var b := Exec(a, Purge(user, families));
            && (forall s :: s in b.sessions <==> s in a.sessions && a.sessions[s].user != user)
            && (forall s :: s in b.sessions ==> b.sessions[s] == a.sessions[s])
            && (forall t :: t in b.audits <==> t in a.audits && a.audits[t].family !in families)
            && (forall t :: t in b.audits ==> b.audits[t] == a.audits[t])
  {
  }

  lemma {:induction false} RunKeepsGone(a: Auth, labels: seq<Label>, s: nat)
    requires Inv(a) && s !in a.sessions && s < a.next
    ensures s !in Run(a, labels).sessions
    decreases |labels|
  {
    hide Inv, Exec;
    if labels != [] {
      StepKeepsInv(a, labels[0]);
      StepNeverRevives(a, labels[0]);
      RunKeepsGone(Exec(a, labels[0]), labels[1..], s);
    }
  }

  /** A purged session never comes back, whatever refreshes were in flight. */
  lemma PurgedSessionsStayGone(before: seq<Label>, user: UserId, families: set<nat>, after: seq<Label>, s: nat)
    requires var a := Run(EMPTY, before);
             Purging(user, families) in a.inflight && s in a.sessions && a.sessions[s].user == user
    ensures s !in Run(Exec(Run(EMPTY, before), Purge(user, families)), after).sessions
  {
    RunKeepsInv(EMPTY, before);
    var a := Run(EMPTY, before);
    assert SessionShape(a, s);
    PurgeWipes(a, user, families);
    StepKeepsInv(a, Purge(user, families));
    RunKeepsGone(Exec(a, Purge(user, families)), after, s);
  }

  /** A purge with nothing between its read and its transaction. */
  lemma PurgeIsTwoSteps(a: Auth, user: UserId)
    ensures var families := Families(a.sessions, user);
            Exec(Exec(a, StartPurge(user)), Purge(user, families)) ==
            a.(audits := map t | t in a.audits && a.audits[t].family !in families :: a.audits[t],
               sessions := map s | s in a.sessions && a.sessions[s].user != user :: a.sessions[s])
  {
    hide Families;
    AddRemove(a.inflight, Purging(user, Families(a.sessions, user)));
  }

  datatype Revocation = NoSuchSession | NotYours | Ended

  /** The service's tables, updated in place. */
  class SessionStore {
    var sessions: map<nat, Session>
    var audits: map<Token, Audit>
    var next: nat
    ghost var inflight: multiset<Request>
    ghost var rotated: seq<Token>

    ghost function State(): Auth
      reads this
    {
      Auth(sessions, audits, next, inflight, rotated)
    }

    constructor ()
      ensures State() == EMPTY
    {
      sessions, audits, next, inflight, rotated := map[], map[], 0, multiset{}, [];
    }

    method IssueSession(user: UserId) returns (refresh: Token)
      modifies this
      ensures State() == Exec(old(State()), Issue(user))
      ensures sessions.Keys == old(sessions).Keys + {refresh.sid} && audits == old(audits)
      ensures sessions[refresh.sid] == Session(user, refresh, refresh.fam, false)
      ensures forall s :: s in sessions && s != refresh.sid ==>
                && sessions[s].revoked == (old(sessions)[s].revoked || old(sessions)[s].user == user)
                && sessions[s].(revoked := old(sessions)[s].revoked) == old(sessions)[s]
    {
      var sid, family := next, next + 1;
      refresh := Token(next + 2, user, sid, family);
      sessions := sessions[sid := Session(user, refresh, family, false)];
      sessions := RevokeUser(sessions, user, Some(sid));
      next := next + 3;
    }

    /** A refresh without interference: refused tokens revoke their family, live ones are replaced. */
    method RotateRefresh(presented: Token, idle: bool) returns (refresh: Option<Token>)
      modifies this
      ensures State() == Refresh(old(State()), presented, idle)
      ensures var live := presented.sid in old(sessions) && old(sessions)[presented.sid].current == presented
                          && !old(sessions)[presented.sid].revoked;
              && (refresh.Some? <==> presented !in old(audits) && live && !idle)
              && (presented in old(audits) ==> FamilyEnds(old(sessions), sessions, old(audits)[presented].family))
              && (presented !in old(audits) && !live ==> FamilyEnds(old(sessions), sessions, presented.fam))
              && (presented !in old(audits) && live && idle ==> OneEnds(old(sessions), sessions, presented.sid))
      ensures refresh.None? ==> audits == old(audits)
      ensures refresh.Some? ==>
                var s := presented.sid;
                && sessions == old(sessions)[s := old(sessions)[s].(current := refresh.value)]
                && audits == old(audits)[presented := Audit(old(sessions)[s].family, s)]
                && refresh.value == Token(old(next), old(sessions)[s].user, s, old(sessions)[s].family)
    {
      if presented in audits {
        sessions := RevokeFamily(sessions, audits[presented].family);
        return None;
      }
      var found := Lookup(sessions, presented);
      if found.None? || sessions[found.value].revoked {
        sessions := RevokeFamily(sessions, presented.fam);
        return None;
      }
      var s := found.value;
      if idle {
        sessions := sessions[s := sessions[s].(revoked := true)];
        return None;
      }
      var newer := Token(next, sessions[s].user, s, sessions[s].family);
      audits := audits[presented := Audit(sessions[s].family, s)];
      sessions := sessions[s := sessions[s].(current := newer)];
      next := next + 1;
      rotated := rotated + [presented];
      return Some(newer);
    }

    /** Ends one session, for its own user only. */
    method RevokeOne(sid: nat, actor: UserId) returns (r: Revocation)
      modifies this`sessions
      ensures r == NoSuchSession <==> sid !in old(sessions)
      ensures r == NotYours <==> sid in old(sessions) && old(sessions)[sid].user != actor
      ensures r == Ended ==> OneEnds(old(sessions), sessions, sid)
      ensures r != Ended ==> sessions == old(sessions)
      ensures State() == Exec(old(State()), Label.RevokeOne(sid, actor))
    {
      if sid !in sessions {
        return NoSuchSession;
      }
      if sessions[sid].user != actor {
        return NotYours;
      }
      if sessions[sid].revoked {
        assert sessions == sessions[sid := sessions[sid].(revoked := true)];
        return Ended;
      }
      sessions := sessions[sid := sessions[sid].(revoked := true)];
      return Ended;
    }

    /** Wipes a user's sessions and the audit rows of their families, with nothing between its read and its transaction. */
    method PurgeForUser(user: UserId) returns (deleted: set<nat>)
      modifies this
      ensures deleted == set s | s in old(sessions) && old(sessions)[s].user == user
      ensures sessions.Keys == old(sessions).Keys - deleted
      ensures forall s :: s in sessions ==> sessions[s] == old(sessions)[s]
      ensures audits.Keys == set t | t in old(audits) &&
                                     !exists s :: s in deleted && old(sessions)[s].family == old(audits)[t].family
      ensures forall t :: t in audits ==> audits[t] == old(audits)[t]
      ensures var a := old(State());
              State() == Exec(Exec(a, StartPurge(user)), Purge(user, Families(a.sessions, user)))
    {
      PurgeIsTwoSteps(State(), user);
      hide Exec, DoPurge;
      var families := Families(sessions, user);
      deleted := set s | s in sessions && sessions[s].user == user;
      audits := map t | t in audits && audits[t].family !in families :: audits[t];
      sessions := map s | s in sessions && sessions[s].user != user :: sessions[s];
    }

    /** Logs a user out everywhere; answers the sessions that were live, which alone change. */
    method RevokeAllForUser(user: UserId) returns (revoked: set<nat>)
      modifies this`sessions
      ensures revoked == LiveOf(old(sessions), user, None)
      ensures sessions.Keys == old(sessions).Keys
      ensures forall s :: s in sessions ==>
                sessions[s] == if s in revoked then old(sessions)[s].(revoked := true) else old(sessions)[s]
      ensures forall s :: s in sessions && sessions[s].user == user ==> sessions[s].revoked
      ensures State() == Exec(old(State()), RevokeAll(user))
    {
      revoked := LiveOf(sessions, user, None);
      UpdateMany(revoked);
    }

    /** The same but for the session in hand. */
    method RevokeAllOther(user: UserId, current: nat) returns (revoked: set<nat>)
      modifies this`sessions
      ensures revoked == LiveOf(old(sessions), user, Some(current))
      ensures sessions.Keys == old(sessions).Keys
      ensures forall s :: s in sessions ==>
                sessions[s] == if s in revoked then old(sessions)[s].(revoked := true) else old(sessions)[s]
      ensures forall s :: s in sessions && sessions[s].user == user ==> s == current || sessions[s].revoked
      ensures State() == Exec(old(State()), RevokeOthers(user, current))
    {
      revoked := LiveOf(sessions, user, Some(current));
      UpdateMany(revoked);
    }

    /** One update of the rows found; nothing to do for none. */
    method UpdateMany(found: set<nat>)
      requires found <= sessions.Keys
      modifies this`sessions
      ensures sessions.Keys == old(sessions).Keys
      ensures forall s :: s in sessions ==>
                sessions[s] == if s in found then old(sessions)[s].(revoked := true) else old(sessions)[s]
    {
      if found == {} {
        return;
      }
      sessions := map s | s in sessions :: if s in found then sessions[s].(revoked := true) else sessions[s];
    }
  }
}
