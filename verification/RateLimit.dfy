/**
 The request limiter of the HTTP server: one entry per client, a sweep once the
 table is large, and what a client gets through over any sequence of requests.
 */
module RateLimit {

  const SWEEP_ABOVE: nat := 10_000

  /** `count` requests so far; the window the entry was opened for ends at `resetAt`. */
  datatype Entry = Entry(count: nat, resetAt: nat)

  type Clients = map<string, Entry>

  datatype Request = Request(client: string, at: nat)

  /** What a request is told: whether it is refused, and the figures of the response. */
  datatype Verdict = Limited(retryAfter: nat) | Served(remaining: nat, resetAt: nat)

  function Live(clients: Clients, now: nat): Clients {
    if |clients| > SWEEP_ABOVE then map c | c in clients && clients[c].resetAt > now :: clients[c] else clients
  }

  function Opened(window: nat, clients: Clients, r: Request): Entry {
    if r.client in clients then clients[r.client] else Entry(0, r.at + window)
  }

  /** The table after one more request. */
  function Counted(window: nat, clients: Clients, r: Request): Clients {
    var live := Live(clients, r.at);
    var e := Opened(window, live, r);
    live[r.client := Entry(e.count + 1, e.resetAt)]
  }

  /** The clients whose entries a request leaves: all of them in a table of up to 10,000. */
  ghost function Stay(clients: Clients, now: nat): set<string> {
    set c | c in clients && (|clients| <= 10_000 || clients[c].resetAt > now)
  }

  class Limiter {
    var clients: Clients
    const max: nat
    const window: nat

    constructor (max: nat, window: nat)
      ensures clients == map[] && this.max == max && this.window == window
    {
      this.clients := map[];
      this.max := max;
      this.window := window;
    }

    /** One request that is neither exempt nor outside the limiter's paths. */
    method Handle(client: string, now: nat) returns (v: Verdict)
      modifies this
      ensures clients == Counted(window, old(clients), Request(client, now))
      // The client's entry counts one more, or is opened; the others stay but for those a sweep finds over.
      ensures
        clients == (map c | c in Stay(old(clients), now) :: old(clients)[c])
          [client := if client in Stay(old(clients), now) then Entry(old(clients)[client].count + 1, old(clients)[client].resetAt) else Entry(1, now + window)]
      ensures client in clients && (v.Limited? <==> clients[client].count > max)
      ensures v.Served? ==> v.remaining == max - clients[client].count && v.resetAt == clients[client].resetAt
      ensures v.Limited? ==> 1000 * v.retryAfter <= (if clients[client].resetAt > now then clients[client].resetAt - now else 0) < 1000 * (v.retryAfter + 1)
    {
      if |clients| > SWEEP_ABOVE {
        clients := map c | c in clients && clients[c].resetAt > now :: clients[c];
      }
      if client !in clients {
        clients := clients[client := Entry(0, now + window)];
      }
      var e := clients[client];
      clients := clients[client := e.(count := e.count + 1)];
      if clients[client].count > max {
        v := Limited((if e.resetAt > now then e.resetAt - now else 0) / 1000);
      } else {
        v := Served(max - clients[client].count, e.resetAt);
      }
    }
  }

  // ------------------------------------------------------------------- runs

  /** The table after a whole log of requests. */
  function After(window: nat, log: seq<Request>): Clients {
    if log == [] then map[] else Counted(window, After(window, log[..|log| - 1]), log[|log| - 1])
  }

  /** How many of the requests are this client's. */
  function Count(log: seq<Request>, client: string): nat {
    if log == [] then 0
    else Count(log[..|log| - 1], client) + if log[|log| - 1].client == client then 1 else 0
  }

  /** The `i`-th request is served. */
  predicate Passes(window: nat, max: nat, log: seq<Request>, i: nat)
    requires i < |log|
  {
    var clients := After(window, log[..i + 1]);
    log[i].client in clients && clients[log[i].client].count <= max
  }

  predicate Ordered(log: seq<Request>) {
    forall i, j :: 0 <= i < j < |log| ==> log[i].at <= log[j].at
  }

  /** The `b`-th request found no entry of its client and opened one. */
  predicate Opens(window: nat, log: seq<Request>, b: nat)
    requires b < |log|
  {
    log[b].client !in Live(After(window, log[..b]), log[b].at)
  }

  /** The request that opened the entry the client has now. */
  function Birth(window: nat, log: seq<Request>, client: string): (b: nat)
    requires client in After(window, log)
    ensures b < |log| && log[b].client == client
  {
    var n := |log| - 1;
    if log[n].client == client && Opens(window, log, n) then n else Birth(window, log[..n], client)
  }

  /** The `j`-th request sweeps, at or after the end of the window the `b`-th one opened. */
  predicate SweepsAway(window: nat, log: seq<Request>, b: nat, j: nat)
    requires b < |log| && j < |log|
  {
    |After(window, log[..j])| > 10_000 && log[j].at >= log[b].at + window
  }

  /** No request after the `b`-th one does. */
  predicate Unswept(window: nat, log: seq<Request>, b: nat)
    requires b < |log|
  {
    forall j :: b < j < |log| ==> !SweepsAway(window, log, b, j)
  }

  lemma CountNext(log: seq<Request>, b: nat, client: string)
    requires b < |log|
    ensures var n := |log| - 1;
            Count(log[b..], client) == Count(log[..n][b..], client) + if log[n].client == client then 1 else 0
  {
    assert log[b..][..|log| - 1 - b] == log[..|log| - 1][b..];
  }

  /** What the last request of a log does to one client's entry. */
  lemma LastRequest(window: nat, log: seq<Request>, client: string)
    requires log != []
    ensures var n := |log| - 1;
            var was, now := After(window, log[..n]), After(window, log);
            var stays := client in was && !(|was| > 10_000 && log[n].at >= was[client].resetAt);
            && (client in Live(was, log[n].at) <==> stays)
            && (client in now <==> stays || log[n].client == client)
            && (log[n].client == client ==> now[client] == if stays then Entry(was[client].count + 1, was[client].resetAt) else Entry(1, log[n].at + window))
            && (log[n].client != client && stays ==> now[client] == was[client])
  {
  }

  /** An entry counts every request of its client since the one that opened it, whatever other clients do. */
  lemma {:induction false} EntryCounts(window: nat, log: seq<Request>, client: string)
    requires client in After(window, log)
    ensures var b := Birth(window, log, client);
            Opens(window, log, b) && After(window, log)[client] == Entry(Count(log[b..], client), log[b].at + window)
  {
    hide After, Counted, Live, Count;
    var n := |log| - 1;
    var b := Birth(window, log, client);
    NonEmpty(window, log, client);
    LastRequest(window, log, client);
    CountNext(log, b, client);
    assert log[..n][..b] == log[..b];
    if b < n {
      EntryCounts(window, log[..n], client);
    } else {
      CountNone(client);
      assert log[..n][b..] == [];
    }
  }

  lemma NonEmpty(window: nat, log: seq<Request>, client: string)
    requires client in After(window, log)
    ensures log != []
  {
  }

  lemma CountNone(client: string)
    ensures Count([], client) == 0
  {
  }

  lemma NothingAfter(window: nat, log: seq<Request>)
    requires log != []
    ensures Unswept(window, log, |log| - 1)
  {
  }

  lemma UnsweptNext(window: nat, log: seq<Request>, b: nat)
    requires b < |log| - 1
    ensures var n := |log| - 1;
            Unswept(window, log, b) <==> Unswept(window, log[..n], b) && !SweepsAway(window, log, b, n)
  {
    hide After;
    var before := log[..|log| - 1];
    assert forall j :: b < j < |before| ==> before[..j] == log[..j];
    assert forall j :: b < j < |before| ==> (SweepsAway(window, before, b, j) <==> SweepsAway(window, log, b, j));
  }

  /** An entry stays, with its count, exactly until some client's request sweeps after its window. */
  lemma {:induction false} EntryLivesUntilSwept(window: nat, log: seq<Request>, b: nat)
    requires b < |log| && Opens(window, log, b)
    ensures var c := log[b].client;
            (c in After(window, log) && Birth(window, log, c) == b) <==> Unswept(window, log, b)
  {
    hide After, Counted, Live, Count, Unswept;
    var c, n := log[b].client, |log| - 1;
    LastRequest(window, log, c);
    if b < n {
      var before := log[..n];
      assert before[..b] == log[..b];
      EntryLivesUntilSwept(window, before, b);
      UnsweptNext(window, log, b);
      if c in After(window, before) && Birth(window, before, c) == b {
        EntryCounts(window, before, c);
      }
    } else {
      NothingAfter(window, log);
    }
  }

  /** Within the window an entry was opened for, exactly the client's first `max` requests are served. */
  lemma FirstMaxPass(window: nat, max: nat, log: seq<Request>, b: nat, i: nat)
    requires Ordered(log) && b <= i < |log| && Opens(window, log, b)
    requires log[i].client == log[b].client && log[i].at < log[b].at + window
    ensures Passes(window, max, log, i) <==> Count(log[b..i + 1], log[b].client) <= max
  {
    hide After, Count, Birth, Live;
    var upto := log[..i + 1];
    assert upto[..b] == log[..b] && upto[b..] == log[b..i + 1];
    EntryLivesUntilSwept(window, upto, b);
    EntryCounts(window, upto, log[b].client);
  }

  /** How many requests of the client that opened at `b` are served before the `n`-th request. */
  function ServedSince(window: nat, max: nat, log: seq<Request>, b: nat, n: nat): nat
    requires b <= n <= |log| && b < |log|
  {
    if n == b then 0
    else ServedSince(window, max, log, b, n - 1) + if log[n - 1].client == log[b].client && Passes(window, max, log, n - 1) then 1 else 0
  }

  /** The promise of the limiter: in one window a client gets through `max` requests, or all of them if fewer. */
  lemma {:induction false} WindowQuota(window: nat, max: nat, log: seq<Request>, b: nat, n: nat)
    requires Ordered(log) && b <= n <= |log| && b < |log| && Opens(window, log, b)
    requires b < n ==> log[n - 1].at < log[b].at + window
    ensures var asked := Count(log[b..n], log[b].client);
            ServedSince(window, max, log, b, n) == if asked <= max then asked else max
  {
    hide Passes, Opens, Count;
    if b == n {
      CountNone(log[b].client);
      assert log[b..n] == [];
    } else {
      WindowQuota(window, max, log, b, n - 1);
      CountNext(log[..n], b, log[b].client);
      assert log[..n][b..] == log[b..n] && log[..n][..n - 1][b..] == log[b..n - 1];
      if log[n - 1].client == log[b].client {
        FirstMaxPass(window, max, log, b, n - 1);
      }
    }
  }

  function ClientsOf(log: seq<Request>): set<string> {
    set r | r in log :: r.client
  }

  lemma SubsetSize<T>(a: set<T>, b: set<T>)
    requires a <= b
    ensures |a| <= |b|
  {
    assert b == a + (b - a);
  }

  lemma {:induction false} NothingSwept(window: nat, log: seq<Request>)
    requires |ClientsOf(log)| <= 10_000
    ensures After(window, log).Keys == ClientsOf(log)
    ensures forall c :: c in After(window, log) ==> After(window, log)[c].count == Count(log, c)
    ensures forall c :: c !in After(window, log) ==> Count(log, c) == 0
  {
    if log != [] {
      var before := log[..|log| - 1];
      assert log == before + [log[|log| - 1]];
      assert ClientsOf(log) == ClientsOf(before) + {log[|log| - 1].client};
      SubsetSize(ClientsOf(before), ClientsOf(log));
      NothingSwept(window, before);
    }
  }

  /**
   Nothing else ends a window: as long as no more than 10,000 clients have been seen,
   a client is served its first `max` requests ever, and no later one at any time.
   */
  lemma QuotaIsForLifeInSmallTables(window: nat, max: nat, log: seq<Request>, i: nat)
    requires i < |log| && |ClientsOf(log)| <= 10_000
    ensures Passes(window, max, log, i) <==> Count(log[..i + 1], log[i].client) <= max
  {
    assert log == log[..i + 1] + log[i + 1..];
    SubsetSize(ClientsOf(log[..i + 1]), ClientsOf(log));
    NothingSwept(window, log[..i + 1]);
  }
}
