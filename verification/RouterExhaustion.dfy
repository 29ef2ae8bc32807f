/** One model leaves no usable key behind: after its turn in a pass it is out of play, or each of its keys
    usable when the request started was called, or was found cooling in this pass. */
module RouterExhaustion {
  import opened Router
  import opened RouterRequest
  import C = Cooldowns
  import H = KeyHealth

  ghost predicate ForwardClock(w: World) {
    forall i: nat, j: nat :: i <= j ==> w.clock(i) <= w.clock(j)
  }

  ghost predicate UniqueIds(rows: seq<H.KeyRow>) {
    forall i, j :: 0 <= i < j < |rows| ==> rows[i].id != rows[j].id
  }

  /** The candidate was called, or has been passed over as cooling since event `from`. */
  predicate Seen(trace: seq<Event>, from: nat, id: C.Triple) {
    exists i :: 0 <= i < |trace| && trace[i].id == id && (trace[i].Called? || from <= i)
  }

  /** Skip structures, clock and trace only grow. */
  ghost predicate Grows(s: State, s': State) {
    && s.skipModels <= s'.skipModels && s.skipPlatforms <= s'.skipPlatforms
    && s.tick <= s'.tick && |s.trace| <= |s'.trace| && s'.trace[..|s.trace|] == s.trace
  }

  /** Every row keeps its id, platform and switch, and a row usable when the request started stays usable
      unless its platform has been skipped. */
  ghost predicate RowsKept(rows: seq<H.KeyRow>, now: real, s: State) {
    && |s.rows| == |rows|
    && forall i :: 0 <= i < |rows| ==>
         && s.rows[i].id == rows[i].id && s.rows[i].platform == rows[i].platform && s.rows[i].enabled == rows[i].enabled
         && (H.Usable(rows[i], now) ==> H.Usable(s.rows[i], now) || rows[i].platform in s.skipPlatforms)
  }

  /** The key belongs to the platform. */
  ghost predicate KeyOf(rows: seq<H.KeyRow>, keyId: nat, platform: string) {
    forall i :: 0 <= i < |rows| && rows[i].id == keyId ==> rows[i].platform == platform
  }

  lemma {:induction false} UsableIdsMeaning(rows: seq<H.KeyRow>, platform: string, now: real)
    ensures forall id :: id in UsableIds(rows, platform, now) <==>
              exists i :: 0 <= i < |rows| && rows[i].id == id && rows[i].platform == platform && rows[i].enabled
                && H.Usable(rows[i], now)
  {
    if rows != [] {
      var rest := rows[1..];
      UsableIdsMeaning(rest, platform, now);
      assert forall i :: 0 < i < |rows| ==> rows[i] == rest[i - 1];
      forall id | id in UsableIds(rest, platform, now)
        ensures exists i :: 0 <= i < |rows| && rows[i].id == id && rows[i].platform == platform && rows[i].enabled
                  && H.Usable(rows[i], now)
      {
        var i :| 0 <= i < |rest| && rest[i].id == id && rest[i].platform == platform && rest[i].enabled
                 && H.Usable(rest[i], now);
        assert rows[i + 1] == rest[i];
      }
    }
  }

  // ----- One key -----

  lemma {:induction false} FailKeepsRows(w: World, req: Request, m: Model, s: State, keyId: nat, at: real, msg: string,
                                         rows: seq<H.KeyRow>, now: real)
    requires RowsKept(rows, now, s) && KeyOf(s.rows, keyId, m.platform)
    ensures RowsKept(rows, now, Fail(w, req, m, s, IdOf(m, keyId), at, msg).0)
    ensures Grows(s, Fail(w, req, m, s, IdOf(m, keyId), at, msg).0)
  {
    hide H.IsRetryable, H.IsQuota, H.IsNotFound, C.AfterFailure, H.Classify;
  }

  lemma {:induction false} KeyKeepsRows(w: World, req: Request, m: Model, keyId: nat, s: State, rows: seq<H.KeyRow>,
                                        now: real)
    requires RowsKept(rows, now, s) && KeyOf(s.rows, keyId, m.platform)
    ensures var (s', v) := TryKey(w, req, m, keyId, s);
            Grows(s, s') && (!v.Done? ==> RowsKept(rows, now, s'))
  {
    hide Fail, C.IsCooling, C.AfterAsking, C.AfterSuccess, H.AfterSuccess, Interpret, H.Usable;
    var id := IdOf(m, keyId);
    var at := w.clock(s.tick);
    if id !in s.skipKeys && !C.IsCooling(s.limits, id, at) {
      var asked := s.(limits := C.AfterAsking(s.limits, id, at), tick := s.tick + 1, calls := s.calls + 1);
      match Interpret(req.mode, m, w.reply(s.calls))
      case Text(_) =>
      case Silent =>
      case Raises(msg) =>
        FailKeepsRows(w, req, m, asked, keyId, at, msg, rows, now);
    }
  }

  lemma {:induction false} KeptRowsKeepOwners(rows: seq<H.KeyRow>, now: real, s: State, s': State, keyId: nat,
                                              platform: string)
    requires RowsKept(rows, now, s) && RowsKept(rows, now, s') && KeyOf(s.rows, keyId, platform)
    ensures KeyOf(s'.rows, keyId, platform)
  {
  }

  /** A key that was not answered and did not end the model has been dealt with. */
  lemma {:induction false} KeyIsSeen(w: World, req: Request, m: Model, keyId: nat, before: seq<Event>, from: nat,
                                     trace: seq<Event>, s: State)
    requires s.trace == before + trace && KeysMatch(trace, s.skipKeys) && from <= |trace|
    ensures var (s', v) := TryKey(w, req, m, keyId, s);
            && |before| <= |s'.trace|
            && (v.NextKey? ==> Seen(s'.trace[|before|..], from, IdOf(m, keyId)))
            && (v.LeaveModel? ==> m.id in s'.skipModels)
  {
    KeyEffect(w, req, m, keyId, s);
    var (s', v) := TryKey(w, req, m, keyId, s);
    hide TryKey;
    if s'.trace == s.trace {
      assert s'.trace[|before|..] == trace;
      assert WasCalled(trace, IdOf(m, keyId));
    } else {
      var e := s'.trace[|s.trace|];
      assert s'.trace[|before|..] == trace + [e];
      assert (trace + [e])[|trace|] == e;
    }
  }

  lemma {:induction false} SeenStays(trace: seq<Event>, longer: seq<Event>, n: nat, from: nat, id: C.Triple)
    requires n <= |trace| <= |longer| && longer[..|trace|] == trace && Seen(trace[n..], from, id)
    ensures Seen(longer[n..], from, id)
  {
    var i :| 0 <= i < |trace[n..]| && trace[n..][i].id == id && (trace[n..][i].Called? || from <= i);
    assert longer[n..][i] == longer[..|trace|][n + i];
  }

  // ----- The key loop -----

  lemma {:induction false} KeysAreSeen(w: World, req: Request, m: Model, ids: seq<nat>, before: seq<Event>,
                                       from: nat, s: State, rows: seq<H.KeyRow>, now: real)
    requires |before| <= |s.trace| && s.trace[..|before|] == before
    requires Running(req, s.trace[|before|..], s) && Admitted(req, m, s) && from <= |s.trace[|before|..]|
    requires RowsKept(rows, now, s) && forall id :: id in ids ==> KeyOf(s.rows, id, m.platform)
    ensures var (s', v) := TryKeys(w, req, m, ids, s);
            && Grows(s, s') && (!v.Done? ==> RowsKept(rows, now, s'))
            && (v.LeaveModel? ==> m.id in s'.skipModels)
            && (v.NextKey? ==> forall id :: id in ids ==> Seen(s'.trace[|before|..], from, IdOf(m, id)))
  {
    hide TryKey, Always, KeysMatch, Admitted, RowsKept, KeyOf, Seen;
    if ids != [] {
      assert s.trace == before + s.trace[|before|..];
      KeyKeeps(w, req, m, ids[0], before, s.trace[|before|..], s);
      KeyKeepsRows(w, req, m, ids[0], s, rows, now);
      KeyIsSeen(w, req, m, ids[0], before, from, s.trace[|before|..], s);
      var (s', v) := TryKey(w, req, m, ids[0], s);
      if v.NextKey? {
        forall id | id in ids[1..] ensures KeyOf(s'.rows, id, m.platform) {
          KeptRowsKeepOwners(rows, now, s, s', id, m.platform);
        }
        KeysAreSeen(w, req, m, ids[1..], before, from, s', rows, now);
        var s'' := TryKeys(w, req, m, ids[1..], s').0;
        SeenStays(s'.trace, s''.trace, |before|, from, IdOf(m, ids[0]));
      }
    }
  }

  // ----- The model loop -----

  /** The key is one that a query at `now` returns for the model. */
  predicate UsableFor(r: H.KeyRow, m: Model, now: real) {
    r.platform == m.platform && r.enabled && H.Usable(r, now)
  }

  /** The model was passed over for good, or all its keys usable at the start have been dealt with. */
  ghost predicate Settled(req: Request, m: Model, rows: seq<H.KeyRow>, now: real, before: seq<Event>, from: nat,
                          s: State) {
    || Passed(req, m, s)
    || (|before| <= |s.trace|
        && forall i :: 0 <= i < |rows| && UsableFor(rows[i], m, now) ==>
             Seen(s.trace[|before|..], from, IdOf(m, rows[i].id)))
  }

  lemma {:induction false} SettledStays(req: Request, m: Model, rows: seq<H.KeyRow>, now: real, before: seq<Event>,
                                        from: nat, s: State, s': State)
    requires Settled(req, m, rows, now, before, from, s) && Grows(s, s')
    ensures Settled(req, m, rows, now, before, from, s')
  {
    hide Seen, H.Usable;
    if !Passed(req, m, s) {
      forall i | 0 <= i < |rows| && UsableFor(rows[i], m, now)
        ensures Seen(s'.trace[|before|..], from, IdOf(m, rows[i].id))
      {
        SeenStays(s.trace, s'.trace, |before|, from, IdOf(m, rows[i].id));
      }
    }
  }

  lemma {:induction false} QueriedKeysAreOwned(rows: seq<H.KeyRow>, now: real, s: State, platform: string,
                                               queried: real)
    requires UniqueIds(rows) && RowsKept(rows, now, s)
    ensures forall id :: id in UsableIds(s.rows, platform, queried) ==> KeyOf(s.rows, id, platform)
  {
    hide UsableIds;
    UsableIdsMeaning(s.rows, platform, queried);
  }

  /** A key usable when the request started is among the keys queried later, while its platform is in play. */
  lemma {:induction false} UsableKeyIsQueried(rows: seq<H.KeyRow>, now: real, s: State, i: nat, queried: real)
    requires RowsKept(rows, now, s) && i < |rows| && rows[i].enabled && H.Usable(rows[i], now) && now <= queried
    requires rows[i].platform !in s.skipPlatforms
    ensures rows[i].id in UsableIds(s.rows, rows[i].platform, queried)
  {
    UsableIdsMeaning(s.rows, rows[i].platform, queried);
    assert H.Usable(s.rows[i], queried);
  }

  lemma {:induction false} ModelIsSettled(w: World, req: Request, m: Model, before: seq<Event>, from: nat, s: State,
                                          rows: seq<H.KeyRow>, now: real, queried: real)
    requires |before| <= |s.trace| && s.trace[..|before|] == before
    requires Running(req, s.trace[|before|..], s) && Admitted(req, m, s) && from <= |s.trace[|before|..]|
    requires UniqueIds(rows) && RowsKept(rows, now, s) && now <= queried
    ensures var (s', v) := TryKeys(w, req, m, UsableIds(s.rows, m.platform, queried), s);
            && Grows(s, s') && (!v.Done? ==> RowsKept(rows, now, s') && Settled(req, m, rows, now, before, from, s'))
  {
    hide TryKeys, UsableIds, Running, RowsKept, KeyOf, Seen;
    var ids := UsableIds(s.rows, m.platform, queried);
    QueriedKeysAreOwned(rows, now, s, m.platform, queried);
    KeysAreSeen(w, req, m, ids, before, from, s, rows, now);
    var (s', v) := TryKeys(w, req, m, ids, s);
    if v.NextKey? {
      forall i | 0 <= i < |rows| && UsableFor(rows[i], m, now)
        ensures Seen(s'.trace[|before|..], from, IdOf(m, rows[i].id))
      {
        UsableKeyIsQueried(rows, now, s, i, queried);
      }
    }
  }

  lemma {:induction false} RowsKeptTick(rows: seq<H.KeyRow>, now: real, s: State, s': State)
    requires RowsKept(rows, now, s) && s'.rows == s.rows && s'.skipPlatforms == s.skipPlatforms
    ensures RowsKept(rows, now, s')
  {
  }

  lemma {:induction false} PassedIsSettled(req: Request, m: Model, rows: seq<H.KeyRow>, now: real,
                                           before: seq<Event>, from: nat, s: State)
    requires Passed(req, m, s)
    ensures Settled(req, m, rows, now, before, from, s)
  {
  }

  // ----- Later attempts only add -----

  lemma {:induction false} KeyGrows(w: World, req: Request, m: Model, keyId: nat, s: State)
    ensures Grows(s, TryKey(w, req, m, keyId, s).0)
  {
    KeyEffect(w, req, m, keyId, s);
    KeyTicks(w, req, m, keyId, s);
    hide TryKey;
  }

  lemma {:induction false} KeyTicks(w: World, req: Request, m: Model, keyId: nat, s: State)
    ensures s.tick <= TryKey(w, req, m, keyId, s).0.tick
  {
    hide Interpret, C.IsCooling, C.AfterAsking, C.AfterSuccess, C.AfterFailure, H.AfterSuccess, H.AfterFailure,
         H.ReportedFailure, H.IsRetryable, H.IsQuota, H.IsNotFound;
  }

  lemma {:induction false} KeysGrow(w: World, req: Request, m: Model, ids: seq<nat>, s: State)
    ensures Grows(s, TryKeys(w, req, m, ids, s).0)
  {
    hide TryKey;
    if ids != [] {
      KeyGrows(w, req, m, ids[0], s);
      var (s', v) := TryKey(w, req, m, ids[0], s);
      if v.NextKey? {
        KeysGrow(w, req, m, ids[1..], s');
      }
    }
  }

  lemma {:induction false} ModelsGrow(w: World, req: Request, deadline: real, models: seq<Model>, s: State)
    ensures Grows(s, TryModels(w, req, deadline, models, s).0)
  {
    hide TryKeys, UsableIds;
    if models != [] {
      var m, s1 := models[0], s.(tick := s.tick + 1);
      if w.clock(s.tick) <= deadline {
        if Passed(req, m, s1) {
          ModelsGrow(w, req, deadline, models[1..], s1);
        } else {
          var ids, s2 := UsableIds(s1.rows, m.platform, w.clock(s1.tick)), s1.(tick := s1.tick + 1);
          KeysGrow(w, req, m, ids, s2);
          var (s3, v) := TryKeys(w, req, m, ids, s2);
          if !v.Done? {
            ModelsGrow(w, req, deadline, models[1..], s3);
          }
        }
      }
    }
  }

  lemma {:induction false} AttemptsGrow(w: World, req: Request, deadline: real, attempt: nat, s: State)
    ensures Grows(s, TryAttempts(w, req, deadline, attempt, s).0)
    decreases req.maxRetries - attempt
  {
    hide TryModels;
    if attempt < req.maxRetries {
      ModelsGrow(w, req, deadline, req.models, s);
      var (s', r) := TryModels(w, req, deadline, req.models, s);
      if !r.Answer? {
        AttemptsGrow(w, req, deadline, attempt + 1, s');
      }
    }
  }
}
