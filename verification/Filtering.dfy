// What each filter of a query does to its answers, and what the live hub's
// match has in common with it: matchQuery of
// server/internal/output/filesystem/filesystem.go and match of
// server/internal/live/hub.go.
module Filtering {
  import opened Signals
  import opened Codec
  import opened Disks
  import opened StoreLog
  import HubProtocol

  const NO_TIME := Time(ZERO_INSTANT, 0)

  // The query for everything of a kind.
  function All(kind: string): Query {
    Query(kind, NO_TIME, NO_TIME, [], [], [], "", "", 0, 0)
  }

  // It is answered by every event of the kind, log if none is named, entry by
  // entry.
  lemma AllAnswers(id: Id, ev: Event, kind: string)
    ensures Answers([Entry(id, ev)], All(kind))
            == if id.kind == (if kind == "" then "log" else kind)
               then [ev.(kind := if ev.kind == "" then "log" else ev.kind)] else []
  {
    assert [Entry(id, ev)][..0] == [];
    assert MatchQuery(All(kind), Canonical(ev));
  }

  lemma {:induction false} AnswersConcat(a: seq<Entry>, b: seq<Entry>, q: Query)
    ensures Answers(a + b, q) == Answers(a, q) + Answers(b, q)
  {
    if b == [] {
      assert a + b == a;
    } else {
      var m := |b| - 1;
      assert (a + b)[..|a + b| - 1] == a + b[..m] && (a + b)[|a + b| - 1] == b[m];
      AnswersConcat(a, b[..m], q);
    }
  }

  // A query keeps what matches of that.
  lemma {:induction false} AnswersFilter(log: seq<Entry>, q: Query, e: Event)
    ensures multiset(Answers(log, q))[e]
            == if MatchQuery(q, e) then multiset(Answers(log, All(q.kind)))[e] else 0
  {
    if log != [] {
      AnswersFilter(log[..|log| - 1], q, e);
      AnswersBag(log, q);
      AnswersBag(log, All(q.kind));
      assert MatchQuery(All(q.kind), Canonical(log[|log| - 1].ev));
    }
  }

  // Two queries of a kind, one of which matches what the other does and P.
  lemma Narrows(log: seq<Entry>, q: Query, r: Query, e: Event, p: bool)
    requires q.kind == r.kind && (MatchQuery(q, e) <==> MatchQuery(r, e) && p)
    ensures multiset(Answers(log, q))[e] == if p then multiset(Answers(log, r))[e] else 0
  {
    AnswersFilter(log, q, e);
    AnswersFilter(log, r, e);
  }

  // A list of services, levels or hosts keeps the events of one of them.
  lemma ServicesFilter(log: seq<Entry>, q: Query, services: seq<string>, e: Event)
    requires services != []
    ensures multiset(Answers(log, q.(services := services)))[e]
            == if e.service in services then multiset(Answers(log, q.(services := [])))[e] else 0
  {
    Narrows(log, q.(services := services), q.(services := []), e, e.service in services);
  }

  lemma LevelsFilter(log: seq<Entry>, q: Query, levels: seq<string>, e: Event)
    requires levels != []
    ensures multiset(Answers(log, q.(levels := levels)))[e]
            == if e.level in levels then multiset(Answers(log, q.(levels := [])))[e] else 0
  {
    Narrows(log, q.(levels := levels), q.(levels := []), e, e.level in levels);
  }

  lemma HostsFilter(log: seq<Entry>, q: Query, hosts: seq<string>, e: Event)
    requires hosts != []
    ensures multiset(Answers(log, q.(hosts := hosts)))[e]
            == if e.host in hosts then multiset(Answers(log, q.(hosts := [])))[e] else 0
  {
    Narrows(log, q.(hosts := hosts), q.(hosts := []), e, e.host in hosts);
  }

  lemma TraceFilter(log: seq<Entry>, q: Query, traceId: string, e: Event)
    requires traceId != ""
    ensures multiset(Answers(log, q.(traceId := traceId)))[e]
            == if e.traceId == traceId then multiset(Answers(log, q.(traceId := "")))[e] else 0
  {
    Narrows(log, q.(traceId := traceId), q.(traceId := ""), e, e.traceId == traceId);
  }

  // A keyword keeps the events whose message contains it, whatever the case.
  lemma KeywordFilter(log: seq<Entry>, q: Query, keyword: string, e: Event)
    ensures multiset(Answers(log, q.(keyword := keyword)))[e]
            == if exists i | 0 <= i <= |e.message| :: FoldedAt(e.message, keyword, i)
               then multiset(Answers(log, q.(keyword := "")))[e] else 0
  {
    ContainsFolded(e.message, keyword);
    if keyword == "" {
      assert FoldedAt(e.message, keyword, 0);
    }
    Narrows(log, q.(keyword := keyword), q.(keyword := ""), e,
            exists i | 0 <= i <= |e.message| :: FoldedAt(e.message, keyword, i));
  }

  // A bound of the window keeps the events on its side, those at it included.
  lemma FromFilter(log: seq<Entry>, q: Query, start: Time, e: Event)
    requires start.instant != ZERO_INSTANT
    ensures multiset(Answers(log, q.(from := start)))[e]
            == if start.instant <= e.time.instant then multiset(Answers(log, q.(from := NO_TIME)))[e] else 0
  {
    Narrows(log, q.(from := start), q.(from := NO_TIME), e, start.instant <= e.time.instant);
  }

  lemma ToFilter(log: seq<Entry>, q: Query, end: Time, e: Event)
    requires end.instant != ZERO_INSTANT
    ensures multiset(Answers(log, q.(to := end)))[e]
            == if e.time.instant <= end.instant then multiset(Answers(log, q.(to := NO_TIME)))[e] else 0
  {
    Narrows(log, q.(to := end), q.(to := NO_TIME), e, e.time.instant <= end.instant);
  }

  // The hub's match is that of a query without a window and a trace, and asks
  // for the kind of the signal itself if one is named.
  lemma LiveMatches(f: HubProtocol.Filter, e: Event)
    ensures var q := Query(f.kind, NO_TIME, NO_TIME, f.levels, f.services, f.hosts, "", f.keyword, 0, 0);
            HubProtocol.Matches(f, e) <==> (f.kind == "" || e.kind == f.kind) && MatchQuery(q, e)
  {
  }
}
