/**
 How long a session is marked: over whole runs of the cluster, from the revocations alone.
 */
module RevocationMarks {
  import opened Wrappers
  import opened RevocationCache

  /** Event `i` of a run revokes the session: its id is new, its node is one of the cluster, its lifetime positive. */
  ghost predicate RevokesAt(events: seq<Event>, i: nat, j: Jti, cfg: Config) {
    && i < |events| && events[i].Revoke? && events[i].jti == j
    && events[i].id !in Run(events[..i], cfg).revokers && events[i].node in cfg.nodes && events[i].ttl > 0
  }

  function ClockAt(events: seq<Event>, i: nat, cfg: Config): nat
    requires i <= |events|
  {
    Run(events[..i], cfg).now
  }

  /** Event `i` is the last one to revoke the session, and its lifetime has not passed. */
  ghost predicate InForce(events: seq<Event>, i: nat, j: Jti, cfg: Config) {
    && RevokesAt(events, i, j, cfg)
    && (forall k: nat :: i < k < |events| ==> !RevokesAt(events, k, j, cfg))
    && Run(events, cfg).now < ClockAt(events, i, cfg) + events[i].ttl
  }

  /** Of the steps, revocations alone touch the marks. */
  lemma OthersKeepMarks(s: Cluster, e: Event, cfg: Config)
    requires !e.Revoke?
    ensures Step(s, e, cfg).marks == s.marks
  {
    if ByRevoker(e) {
      RevokerShrinks(s, e, cfg);
    } else if ByNetwork(e) {
      NetworkShrinks(s, e, cfg);
    } else {
      match e
      case Tick(_) =>
      case VerifyFast(id, n, j, healthy) =>
        LookupKeepsMarks(s, id, n, j, healthy, cfg);
      case Proceed(id) =>
        if id in s.calls {
          ContinueKeepsMarks(s, id);
        }
    }
  }

  lemma LookupKeepsMarks(s: Cluster, id: nat, n: Node, j: Jti, healthy: bool, cfg: Config)
    ensures Lookup(s, id, n, j, healthy, cfg).marks == s.marks && Lookup(s, id, n, j, healthy, cfg).now == s.now
  {
  }

  lemma ContinueKeepsMarks(s: Cluster, id: nat)
    requires id in s.calls
    ensures Continue(s, id).marks == s.marks && Continue(s, id).now == s.now
  {
  }

  lemma RevokesBefore(events: seq<Event>, i: nat, j: Jti, cfg: Config)
    requires i + 1 < |events|
    ensures RevokesAt(events[..|events| - 1], i, j, cfg) == RevokesAt(events, i, j, cfg)
    ensures ClockAt(events[..|events| - 1], i, cfg) == ClockAt(events, i, cfg)
  {
    assert events[..|events| - 1][..i] == events[..i];
  }

  /** The mark of a session runs out when the last revocation says. */
  ghost predicate MarkOf(events: seq<Event>, j: Jti, cfg: Config) {
    var marks := Run(events, cfg).marks;
    if j in marks then
      exists i: nat :: LastAt(events, i, j, cfg) && marks[j].expireAt == ClockAt(events, i, cfg) + events[i].ttl
    else forall i: nat :: i < |events| ==> !RevokesAt(events, i, j, cfg)
  }

  ghost predicate LastAt(events: seq<Event>, i: nat, j: Jti, cfg: Config) {
    RevokesAt(events, i, j, cfg) && forall k: nat :: i < k < |events| ==> !RevokesAt(events, k, j, cfg)
  }

  lemma RevokeSets(events: seq<Event>, j: Jti, cfg: Config)
    requires events != [] && RevokesAt(events, |events| - 1, j, cfg)
    ensures MarkOf(events, j, cfg)
  {
    var n := |events| - 1;
    assert LastAt(events, n, j, cfg);
  }

  lemma OthersLeaveMark(events: seq<Event>, j: Jti, cfg: Config)
    requires events != [] && !RevokesAt(events, |events| - 1, j, cfg)
    ensures var marks, before := Run(events, cfg).marks, Run(events[..|events| - 1], cfg).marks;
      (j in marks <==> j in before) && (j in marks ==> marks[j] == before[j])
  {
    var n := |events| - 1;
    RunLast(events, cfg);
    if events[n].Revoke? {
      RevokeOther(Run(events[..n], cfg), events[n], j, cfg);
    } else {
      OthersKeepMarks(Run(events[..n], cfg), events[n], cfg);
    }
  }

  lemma RunLast(events: seq<Event>, cfg: Config)
    requires events != []
    ensures Run(events, cfg) == Step(Run(events[..|events| - 1], cfg), events[|events| - 1], cfg)
  {
  }

  lemma RevokeOther(s: Cluster, e: Event, j: Jti, cfg: Config)
    requires e.Revoke? && (e.jti != j || e.id in s.revokers || e.node !in cfg.nodes || e.ttl == 0)
    ensures var marks := Step(s, e, cfg).marks;
      (j in marks <==> j in s.marks) && (j in marks ==> marks[j] == s.marks[j])
  {
  }

  lemma LastStays(events: seq<Event>, i: nat, j: Jti, cfg: Config)
    requires events != [] && !RevokesAt(events, |events| - 1, j, cfg) && LastAt(events[..|events| - 1], i, j, cfg)
    ensures LastAt(events, i, j, cfg) && ClockAt(events, i, cfg) == ClockAt(events[..|events| - 1], i, cfg)
  {
    RevokesBefore(events, i, j, cfg);
    forall k: nat | i < k < |events| ensures !RevokesAt(events, k, j, cfg) {
      if k < |events| - 1 {
        RevokesBefore(events, k, j, cfg);
      }
    }
  }

  lemma MarkStays(events: seq<Event>, j: Jti, cfg: Config)
    requires events != [] && !RevokesAt(events, |events| - 1, j, cfg) && MarkOf(events[..|events| - 1], j, cfg)
    ensures MarkOf(events, j, cfg)
  {
    var before := events[..|events| - 1];
    OthersLeaveMark(events, j, cfg);
    if j in Run(before, cfg).marks {
      var i: nat :| LastAt(before, i, j, cfg)
                    && Run(before, cfg).marks[j].expireAt == ClockAt(before, i, cfg) + before[i].ttl;
      LastStays(events, i, j, cfg);
    } else {
      forall i: nat | i < |events| ensures !RevokesAt(events, i, j, cfg) {
        if i < |events| - 1 {
          RevokesBefore(events, i, j, cfg);
        }
      }
    }
  }

  lemma {:induction false} RunMark(events: seq<Event>, j: Jti, cfg: Config)
    ensures MarkOf(events, j, cfg)
  {
    if events != [] {
      if RevokesAt(events, |events| - 1, j, cfg) {
        RevokeSets(events, j, cfg);
      } else {
        RunMark(events[..|events| - 1], j, cfg);
        MarkStays(events, j, cfg);
      }
    }
  }

  /**
   In every run a session is marked if and only if it has been revoked and the lifetime given by the last
   revocation, from the second it was made in, has not passed.
   */
  lemma RevokedIff(events: seq<Event>, j: Jti, cfg: Config)
    ensures Revoked(Run(events, cfg), j) <==> exists i: nat :: InForce(events, i, j, cfg)
  {
    RunMark(events, j, cfg);
    if Revoked(Run(events, cfg), j) {
      var i: nat :| LastAt(events, i, j, cfg)
                    && Run(events, cfg).marks[j].expireAt == ClockAt(events, i, cfg) + events[i].ttl;
      assert InForce(events, i, j, cfg);
    }
    if i: nat :| InForce(events, i, j, cfg) {
      assert LastAt(events, i, j, cfg);
      OneLast(events, j, cfg);
    }
  }

  lemma OneLast(events: seq<Event>, j: Jti, cfg: Config)
    ensures forall i: nat, k: nat :: LastAt(events, i, j, cfg) && LastAt(events, k, j, cfg) ==> i == k
  {
  }

  // ---------------------------------------------------------------- since when

  /** Marked before event `k` of the run, or at its end. */
  ghost predicate MarkedAt(events: seq<Event>, k: nat, j: Jti, cfg: Config) {
    k <= |events| && Revoked(Run(events[..k], cfg), j)
  }

  /** Event `i` begins the time the session has been marked in without a gap. */
  ghost predicate Begins(events: seq<Event>, i: nat, j: Jti, cfg: Config) {
    && RevokesAt(events, i, j, cfg) && !MarkedAt(events, i, j, cfg)
    && forall k: nat :: i < k <= |events| ==> MarkedAt(events, k, j, cfg)
  }

  lemma BeginsLonger(events: seq<Event>, i: nat, j: Jti, cfg: Config)
    requires events != [] && Begins(events[..|events| - 1], i, j, cfg) && Revoked(Run(events, cfg), j)
    ensures Begins(events, i, j, cfg) && ClockAt(events, i, cfg) == ClockAt(events[..|events| - 1], i, cfg)
  {
    var before := events[..|events| - 1];
    assert before[..i] == events[..i];
    forall k: nat | i < k <= |events| ensures MarkedAt(events, k, j, cfg) {
      if k < |events| {
        assert before[..k] == events[..k] && MarkedAt(before, k, j, cfg);
      } else {
        assert events[..k] == events;
      }
    }
  }

  lemma BeginsNow(events: seq<Event>, j: Jti, cfg: Config)
    requires events != [] && RevokesAt(events, |events| - 1, j, cfg)
    requires !Revoked(Run(events[..|events| - 1], cfg), j)
    ensures Begins(events, |events| - 1, j, cfg)
    ensures Run(events, cfg).marks[j].since == ClockAt(events, |events| - 1, cfg)
  {
    assert events[..|events|] == events;
  }

  lemma SinceKept(events: seq<Event>, j: Jti, cfg: Config)
    requires events != [] && Revoked(Run(events, cfg), j)
    requires RevokesAt(events, |events| - 1, j, cfg) ==> Revoked(Run(events[..|events| - 1], cfg), j)
    ensures Revoked(Run(events[..|events| - 1], cfg), j)
    ensures Run(events, cfg).marks[j].since == Run(events[..|events| - 1], cfg).marks[j].since
  {
    if !RevokesAt(events, |events| - 1, j, cfg) {
      OthersLeaveMark(events, j, cfg);
      ClockGoesOn(events, cfg);
    }
  }

  lemma ClockGoesOn(events: seq<Event>, cfg: Config)
    requires events != []
    ensures Run(events[..|events| - 1], cfg).now <= Run(events, cfg).now
  {
    StepGoesOn(Run(events[..|events| - 1], cfg), events[|events| - 1], cfg);
  }

  lemma StepGoesOn(s: Cluster, e: Event, cfg: Config)
    ensures s.now <= Step(s, e, cfg).now
  {
    if ByRevoker(e) {
      RevokerShrinks(s, e, cfg);
    } else if ByNetwork(e) {
      NetworkShrinks(s, e, cfg);
    } else {
      match e
      case Tick(_) =>
      case Revoke(_, _, _, _) =>
      case VerifyFast(id, n, j, healthy) =>
        LookupKeepsMarks(s, id, n, j, healthy, cfg);
      case Proceed(id) =>
        if id in s.calls {
          ContinueKeepsMarks(s, id);
        }
    }
  }

  /** What a mark calls its beginning is the second of the revocation since which the session has been marked. */
  lemma {:induction false} SinceIsBeginning(events: seq<Event>, j: Jti, cfg: Config) returns (i: nat)
    requires Revoked(Run(events, cfg), j)
    ensures Begins(events, i, j, cfg) && Run(events, cfg).marks[j].since == ClockAt(events, i, cfg)
  {
    var n := |events| - 1;
    if RevokesAt(events, n, j, cfg) && !Revoked(Run(events[..n], cfg), j) {
      i := n;
      BeginsNow(events, j, cfg);
    } else {
      SinceKept(events, j, cfg);
      i := SinceIsBeginning(events[..n], j, cfg);
      BeginsLonger(events, i, j, cfg);
    }
  }
}
