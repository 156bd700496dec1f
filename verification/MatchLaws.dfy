/** What a request to the match queue does, told from the requests made and who waits in line. */
module MatchLaws {
  import opened MatchQueue
  import opened MatchProofs

  // ---- Queue keys ----

  /** Requests share a line exactly when game and code are the same, if no game name holds a bar. */
  lemma SameLineIff(a: Rule, b: Rule)
    requires '|' !in a.game && '|' !in b.game
    ensures KeyOf(a) == KeyOf(b) <==> a.game == b.game && a.code == b.code
  {
    if KeyOf(a) == KeyOf(b) {
      var k, m, n := KeyOf(a), |a.game|, |b.game|;
      assert k[m] == '|' && k[n] == '|';
      assert forall i | 0 <= i < m :: k[i] == a.game[i] && k[i] != '|';
      assert forall i | 0 <= i < n :: k[i] == b.game[i] && k[i] != '|';
      assert m == n;
      assert a.game == k[..m] && b.game == k[..m] && a.code == k[m + 1..] && b.code == k[m + 1..];
    }
  }

  /** A bar in a game name can put players of two games in one line. */
  lemma BarSharesLine(game: string, code: string)
    ensures KeyOf(Rule(game + "|" + code, "", 2)) == KeyOf(Rule(game, code + "|", 2))
    ensures game + "|" + code != game
  {
    assert (game + "|" + code) + "|" + "" == game + "|" + (code + "|");
    assert |game + "|" + code| != |game|;
  }

  // ---- Requests ----

  ghost predicate Waits(b: Board, uid: Uid) {
    exists k | k in b.queues :: InLine(b.queues[k], uid)
  }

  lemma WaitsIff(b: Board, uid: Uid)
    requires Agrees(b)
    ensures Waits(b, uid) <==> uid in b.byUid
  {
    if uid in b.byUid {
      var k := b.byUid[uid];
      assert InLine(Line(b.queues, k), uid);
      assert k in b.queues;
    }
    if Waits(b, uid) {
      var k :| k in b.queues && InLine(b.queues[k], uid);
      var i :| 0 <= i < |b.queues[k]| && b.queues[k][i].uid == uid;
    }
  }

  /** In every run: a request is accepted exactly when its rule is sound and the player is in no line; a refused one changes nothing. */
  lemma JoinIsHeard(events: seq<Event>, size: Key -> int, uid: Uid, rule: Rule, seqNo: nat)
    requires Uniform(events, size)
    ensures var b, b' := Run(Empty(), events), Run(Empty(), events + [Join(uid, rule, seqNo)]);
            if rule.game != "" && rule.players >= 1 && !Waits(b, uid) then
              && b'.accepted == b.accepted + [Entry(uid, seqNo, rule, |b.accepted|)] && b'.cancelled == b.cancelled
              && b.tables <= b'.tables
            else b' == b
  {
    hide Waits, Uniform, Uids, Agrees, SizeInv, SeatsInv;
    QueueIsConsistent(events, size);
    RunMore(Empty(), events, Join(uid, rule, seqNo));
    WaitsIff(Run(Empty(), events), uid);
  }

  /** In every run: a player who waits leaves the line at once, and for one who does not nothing changes. */
  lemma LeaveIsHeard(events: seq<Event>, size: Key -> int, uid: Uid)
    requires Uniform(events, size)
    ensures var b, b' := Run(Empty(), events), Run(Empty(), events + [Leave(uid)]);
            if Waits(b, uid) then
              && b'.accepted == b.accepted && b'.tables == b.tables
              && |b'.cancelled| == |b.cancelled| + 1 && b'.cancelled[..|b.cancelled|] == b.cancelled
              && b'.cancelled[|b.cancelled|].uid == uid && !Waits(b', uid)
            else b' == b
  {
    hide Waits, Uniform, Agrees, SizeInv, SeatsInv, PlaceOf;
    QueueIsConsistent(events, size);
    var b := Run(Empty(), events);
    RunMore(Empty(), events, Leave(uid));
    WaitsIff(b, uid);
    LeaveKeepsIndex(b, uid);
    WaitsIff(Cancel(b, uid), uid);
    if Waits(b, uid) {
      HasPlace(b, uid);
    }
  }

  lemma HasPlace(b: Board, uid: Uid)
    requires Agrees(b) && uid in b.byUid
    ensures PlaceOf(Line(b.queues, b.byUid[uid]), uid) < |Line(b.queues, b.byUid[uid])|
  {
    assert InLine(Line(b.queues, b.byUid[uid]), uid);
  }

  /** In every run: an accepted request is sound, and it waits in its line, was cancelled or was seated, one of the three. */
  lemma WaitsOrLeftOrSeated(events: seq<Event>, n: nat)
    requires n < |Run(Empty(), events).accepted|
    ensures var b := Run(Empty(), events);
            var e := b.accepted[n];
            && e.rule.players >= 1 && e.rule.game != ""
            && (if e in Line(b.queues, KeyOf(e.rule)) then e !in b.cancelled && e !in Flat(b.tables) && Waits(b, e.uid)
                else e in b.cancelled <==> e !in Flat(b.tables))
  {
    hide Run, KeyOf, Waits;
    ExactlyOneFate(events, n);
    AcceptedAreSound(Empty(), events);
    var b := Run(Empty(), events);
    var e := b.accepted[n];
    assert e in b.accepted;
    var q := Line(b.queues, KeyOf(e.rule));
    if e in q {
      StandsInLine(b, KeyOf(e.rule), e);
    }
  }

  lemma StandsInLine(b: Board, k: Key, e: Entry)
    requires e in Line(b.queues, k)
    ensures Waits(b, e.uid)
  {
    var i :| 0 <= i < |Line(b.queues, k)| && Line(b.queues, k)[i] == e;
    assert k in b.queues && InLine(b.queues[k], e.uid);
  }

  lemma {:induction false} AcceptedAreSound(b: Board, events: seq<Event>)
    requires forall e | e in b.accepted :: e.rule.players >= 1 && e.rule.game != ""
    ensures forall e | e in Run(b, events).accepted :: e.rule.players >= 1 && e.rule.game != ""
    decreases |events|
  {
    hide KeyOf, Uids, Line;
    if events != [] {
      AcceptedAreSound(Next(b, events[0]), events[1..]);
    }
  }
}
