// The study-session service of backend/app/services/study_session_service.py: the
// statistics loop over a user's completed sessions of the last `days` days, and marking
// a session complete. The collection is a sequence of documents in natural order; the
// clock reading is a parameter, in seconds.

module StudySessionService {
  import opened Wrappers

  const SecondsPerDay: int := 86400

  /** A stored study session (StudySessionInDB). */
  datatype Session = Session(
    id: string, userId: string, durationMinutes: int, sessionType: string,
    startTime: int, endTime: Option<int>, completed: bool)

  /** StudySessionComplete: the fields complete_session sets. */
  datatype Completion = Completion(endTime: int, completed: bool)

  /** The reply of get_session_stats. */
  datatype Stats = Stats(totalSessions: int, totalMinutes: int, sessionsByType: map<string, int>, periodDays: int)

  /** The query of get_session_stats: the user's completed sessions started at or after
      `since`. */
  predicate Counted(s: Session, userId: string, since: int) {
    s.userId == userId && s.startTime >= since && s.completed
  }

  /** The sessions the query returns, in collection order. */
  function CountedSessions(docs: seq<Session>, userId: string, since: int): seq<Session> {
    if docs == [] then []
    else
      var last := docs[|docs| - 1];
      var r := CountedSessions(docs[..|docs| - 1], userId, since);
      if Counted(last, userId, since) then r + [last] else r
  }

  /** A session is counted exactly when it is one of the documents and qualifies. */
  lemma {:induction false} CountedMembership(docs: seq<Session>, userId: string, since: int, x: Session)
    ensures x in CountedSessions(docs, userId, since) <==> x in docs && Counted(x, userId, since)
  {
    if docs != [] {
      var init := docs[..|docs| - 1];
      CountedMembership(init, userId, since, x);
      assert docs == init + [docs[|docs| - 1]];
    }
  }

  function TotalMinutes(s: seq<Session>): int {
    if s == [] then 0 else TotalMinutes(s[..|s| - 1]) + s[|s| - 1].durationMinutes
  }

  /** One more session of type `t`. */
  function AddOne(m: map<string, int>, t: string): map<string, int> {
    if t in m then m[t := m[t] + 1] else m[t := 1]
  }

  /** The number of sessions of each type that occurs. */
  function TypeCounts(s: seq<Session>): map<string, int> {
    if s == [] then map[] else AddOne(TypeCounts(s[..|s| - 1]), s[|s| - 1].sessionType)
  }

  /** The types of the sessions, in order. */
  function TypesOf(s: seq<Session>): (r: seq<string>)
    ensures |r| == |s|
  {
    if s == [] then [] else TypesOf(s[..|s| - 1]) + [s[|s| - 1].sessionType]
  }

  /** The sum of `m`'s values over `keys`. */
  ghost function SumOver(m: map<string, int>, keys: set<string>): int
    requires keys <= m.Keys
    decreases keys
  {
    if keys == {} then 0
    else
      var k :| k in keys;
      m[k] + SumOver(m, keys - {k})
  }

  ghost function MapSum(m: map<string, int>): int {
    SumOver(m, m.Keys)
  }

  /** Any key may be taken out first. */
  lemma {:induction false} SumOverPick(m: map<string, int>, keys: set<string>, k: string)
    requires keys <= m.Keys && k in keys
    ensures SumOver(m, keys) == m[k] + SumOver(m, keys - {k})
    decreases keys
  {
    var j :| j in keys && SumOver(m, keys) == m[j] + SumOver(m, keys - {j});
    if j != k {
      SumOverPick(m, keys - {j}, k);
      SumOverPick(m, keys - {k}, j);
      assert keys - {j} - {k} == keys - {k} - {j};
    }
  }

  /** The sum over `keys` depends only on the values at those keys. */
  lemma {:induction false} SumOverSame(m: map<string, int>, m': map<string, int>, keys: set<string>)
    requires keys <= m.Keys && keys <= m'.Keys
    requires forall k :: k in keys ==> m[k] == m'[k]
    ensures SumOver(m, keys) == SumOver(m', keys)
    decreases keys
  {
    if keys != {} {
      var k :| k in keys && SumOver(m, keys) == m[k] + SumOver(m, keys - {k});
      SumOverPick(m', keys, k);
      SumOverSame(m, m', keys - {k});
    }
  }

  lemma MapSumAddOne(m: map<string, int>, t: string)
    ensures MapSum(AddOne(m, t)) == MapSum(m) + 1
  {
    var m' := AddOne(m, t);
    SumOverPick(m', m'.Keys, t);
    SumOverSame(m, m', m.Keys - {t});
    if t in m {
      SumOverPick(m, m.Keys, t);
      assert m'.Keys - {t} == m.Keys - {t};
    } else {
      assert m'.Keys - {t} == m.Keys;
      assert m.Keys - {t} == m.Keys;
    }
  }

  /** The keys are exactly the types that occur, each counted as often as it occurs. */
  lemma {:induction false} TypeCountsAreOccurrences(s: seq<Session>)
    ensures forall t :: t in TypeCounts(s) <==> t in TypesOf(s)
    ensures forall t :: t in TypeCounts(s) ==> TypeCounts(s)[t] == multiset(TypesOf(s))[t]
  {
    if s != [] {
      TypeCountsAreOccurrences(s[..|s| - 1]);
    }
  }

  /** The counts add up to the number of sessions. */
  lemma {:induction false} TypeCountsSum(s: seq<Session>)
    ensures MapSum(TypeCounts(s)) == |s|
  {
    if s != [] {
      TypeCountsSum(s[..|s| - 1]);
      MapSumAddOne(TypeCounts(s[..|s| - 1]), s[|s| - 1].sessionType);
    }
  }

  /** Counting one more document: it joins the counted sessions when it qualifies, and
      the totals grow by its minutes and its type. */
  lemma CountedStep(docs: seq<Session>, i: nat, userId: string, since: int)
    requires i < |docs|
    ensures var c := CountedSessions(docs[..i], userId, since); var s := docs[i];
      && (Counted(s, userId, since) ==> CountedSessions(docs[..i + 1], userId, since) == c + [s])
      && (!Counted(s, userId, since) ==> CountedSessions(docs[..i + 1], userId, since) == c)
      && TotalMinutes(c + [s]) == TotalMinutes(c) + s.durationMinutes
      && TypeCounts(c + [s]) == AddOne(TypeCounts(c), s.sessionType)
  {
    var c := CountedSessions(docs[..i], userId, since);
    assert docs[..i + 1][..i] == docs[..i];
    assert (c + [docs[i]])[..|c|] == c;
  }

  /** get_session_stats: counts the user's completed sessions that started within the last
      `days` days before `now`, sums their minutes, counts them per type and echoes `days`. */
  method SessionStats(docs: seq<Session>, userId: string, days: int, now: int) returns (stats: Stats)
    ensures var c := CountedSessions(docs, userId, now - days * SecondsPerDay);
      stats == Stats(|c|, TotalMinutes(c), TypeCounts(c), days)
  {
    var since := now - days * SecondsPerDay;
    var totalSessions := 0;
    var totalMinutes := 0;
    var sessionsByType: map<string, int> := map[];
    ghost var counted: seq<Session> := [];
    var i := 0;
    while i < |docs|
      invariant 0 <= i <= |docs|
      invariant counted == CountedSessions(docs[..i], userId, since)
      invariant totalSessions == |counted| && totalMinutes == TotalMinutes(counted)
      invariant sessionsByType == TypeCounts(counted)
    {
      var session := docs[i];
      CountedStep(docs, i, userId, since);
      if Counted(session, userId, since) {
        totalSessions := totalSessions + 1;
        totalMinutes := totalMinutes + session.durationMinutes;
        if session.sessionType in sessionsByType {
          sessionsByType := sessionsByType[session.sessionType := sessionsByType[session.sessionType] + 1];
        } else {
          sessionsByType := sessionsByType[session.sessionType := 1];
        }
        counted := counted + [session];
      }
      i := i + 1;
    }
    assert docs[..|docs|] == docs;
    stats := Stats(totalSessions, totalMinutes, sessionsByType, days);
  }

  /** The per-type counts of the statistics add up to the session count, and the keys
      are the types of the counted sessions, each counted as often as it occurs; with
      nothing to count, everything is zero. */
  lemma StatsConsistent(docs: seq<Session>, userId: string, days: int, now: int)
    ensures var c := CountedSessions(docs, userId, now - days * SecondsPerDay);
      && MapSum(TypeCounts(c)) == |c|
      && (forall t :: t in TypeCounts(c) <==> t in TypesOf(c))
      && (forall t :: t in TypeCounts(c) ==> TypeCounts(c)[t] == multiset(TypesOf(c))[t])
      && (c == [] ==> TypeCounts(c) == map[] && TotalMinutes(c) == 0)
  {
    var c := CountedSessions(docs, userId, now - days * SecondsPerDay);
    TypeCountsSum(c);
    TypeCountsAreOccurrences(c);
  }

  predicate Matches(s: Session, id: string, userId: string) {
    s.id == id && s.userId == userId
  }

  /** The position of the first session with that id and user, or -1. */
  function FindSession(docs: seq<Session>, id: string, userId: string): (r: int)
    ensures -1 <= r < |docs|
    ensures r == -1 <==> forall k :: 0 <= k < |docs| ==> !Matches(docs[k], id, userId)
    ensures r >= 0 ==> Matches(docs[r], id, userId) && forall k :: 0 <= k < r ==> !Matches(docs[k], id, userId)
  {
    if |docs| == 0 then -1
    else if Matches(docs[0], id, userId) then 0
    else
      var j := FindSession(docs[1..], id, userId);
      assert forall k :: 1 <= k < |docs| ==> docs[k] == docs[1..][k - 1];
      if j == -1 then -1 else j + 1
  }

  /** The `study_sessions` collection. */
  class SessionCollection {
    var docs: seq<Session>

    constructor (docs: seq<Session>)
      ensures this.docs == docs
    {
      this.docs := docs;
    }

    /** complete_session: sets the end time and completed flag of the user's session with
        that id and returns it, or returns None and changes nothing when there is none. */
    method CompleteSession(id: string, userId: string, c: Completion) returns (r: Option<Session>)
      modifies this
      ensures var i := FindSession(old(docs), id, userId);
        && (i == -1 ==> r.None? && docs == old(docs))
        && (i >= 0 ==> r == Some(old(docs)[i].(endTime := Some(c.endTime), completed := c.completed))
                       && docs == old(docs)[i := r.value])
    {
      var i := FindSession(docs, id, userId);
      if i == -1 {
        return None;
      }
      var updated := docs[i].(endTime := Some(c.endTime), completed := c.completed);
      docs := docs[i := updated];
      r := Some(updated);
    }
  }
}
