/** What a failed call says about the key it used, and when a key is worth trying. Error messages are
    given in lower case, as the code lowers them before every test. */
module KeyHealth {
  import opened Text

  /** The verdict on a failure: nothing about the key, a dead key, or a busy one. */
  datatype Finding = Nothing | DeadKey | BusyKey

  datatype Status = Healthy | Error | Limited | Unknown

  datatype Moment = Unchecked | Checked(at: real)

  datatype KeyRow = KeyRow(id: nat, platform: string, enabled: bool, status: Status, lastChecked: Moment)

  const KEY_FATAL: seq<string> := [
    "401", "402", "403",
    "unauthorized", "forbidden", "permission", "invalid api key",
    "authentication", "api key not valid", "reported as leaked",
    "payment required", "billing", "credit card", "customer_verification",
    "more credits", "insufficient credit", "insufficient_quota",
    "out of credit", "exceeded your current quota"]

  const RATE_LIMIT_FIRST: seq<string> :=
    ["429", "too many requests", "rate limit", "rate-limit", "resource_exhausted"]

  const RATE_LIMITED: seq<string> :=
    ["429", "rate limit", "rate-limit", "too many requests", "resource_exhausted", "quota"]

  const RETRYABLE: seq<string> := [
    "429", "rate limit", "too many requests", "quota",
    "timeout", "timed out", "503", "unavailable",
    "500", "internal server error", "connection",
    "404", "not found", "402", "payment",
    "empty", "no content"]

  const QUOTA_WORDS: seq<string> :=
    ["429", "quota", "rate limit", "rate-limit", "resource_exhausted", "too many requests"]

  const NOT_FOUND: seq<string> := ["404", "not found"]

  predicate IsRetryable(msg: string) { ContainsAny(msg, RETRYABLE) }

  predicate IsQuota(msg: string) { ContainsAny(msg, QUOTA_WORDS) }

  predicate IsNotFound(msg: string) { ContainsAny(msg, NOT_FOUND) }

  function Classify(msg: string): Finding {
    if msg == "" then Nothing
    else if ContainsAny(msg, RATE_LIMIT_FIRST) then BusyKey
    else if ContainsAny(msg, KEY_FATAL) then DeadKey
    else if ContainsAny(msg, RATE_LIMITED) then BusyKey
    else Nothing
  }

  const BENCH_S: real := 1800.0

  /** Not marked as dead, or marked at least 30 minutes ago. */
  predicate Usable(r: KeyRow, now: real) {
    r.status != Error || r.lastChecked.Unchecked? || r.lastChecked.at < now - BENCH_S
  }

  function StatusOf(f: Finding): Status
    requires f != Nothing
  {
    if f.DeadKey? then Error else Limited
  }

  function Mark(rows: seq<KeyRow>, keyId: nat, status: Status, now: real): seq<KeyRow> {
    seq(|rows|, i requires 0 <= i < |rows| =>
      if rows[i].id == keyId then rows[i].(status := status, lastChecked := Checked(now)) else rows[i])
  }

  predicate HasKey(rows: seq<KeyRow>, keyId: nat) {
    exists i :: 0 <= i < |rows| && rows[i].id == keyId
  }

  /** What `record_failure` reports: nothing when the message is uninformative, the key is gone, or the
      database refuses (`saved` is false). */
  function ReportedFailure(rows: seq<KeyRow>, keyId: nat, msg: string, saved: bool): Finding {
    if saved && HasKey(rows, keyId) then Classify(msg) else Nothing
  }

  function AfterFailure(rows: seq<KeyRow>, keyId: nat, msg: string, saved: bool, now: real): seq<KeyRow> {
    var f := ReportedFailure(rows, keyId, msg, saved);
    if f == Nothing then rows else Mark(rows, keyId, StatusOf(f), now)
  }

  function AfterSuccess(rows: seq<KeyRow>, keyId: nat, saved: bool, now: real): seq<KeyRow> {
    if saved then Mark(rows, keyId, Healthy, now) else rows
  }

  class KeyTable {
    var rows: seq<KeyRow>

    constructor (rows: seq<KeyRow>)
      ensures this.rows == rows
    {
      this.rows := rows;
    }

    method RecordFailure(keyId: nat, msg: string, saved: bool, now: real) returns (f: Finding)
      modifies this
      ensures f == ReportedFailure(old(rows), keyId, msg, saved)
      ensures rows == AfterFailure(old(rows), keyId, msg, saved, now)
    {
      f := Classify(msg);
      if f == Nothing || !saved || !HasKey(rows, keyId) { return Nothing; }
      rows := Mark(rows, keyId, StatusOf(f), now);
    }

    method RecordSuccess(keyId: nat, saved: bool, now: real)
      modifies this
      ensures rows == AfterSuccess(old(rows), keyId, saved, now)
    {
      if saved {
        rows := Mark(rows, keyId, Healthy, now);
      }
    }
  }

  // ----- Main results -----

  predicate Says(msg: string, words: set<string>) {
    exists w :: w in words && Contains(msg, w)
  }

  /** The phrases that condemn a key, and those that speak of rate limiting or a quota. */
  lemma {:induction false} PhraseMeaning(msg: string)
    ensures ContainsAny(msg, KEY_FATAL) <==> Says(msg, {
              "401", "402", "403", "unauthorized", "forbidden", "permission", "invalid api key", "authentication",
              "api key not valid", "reported as leaked", "payment required", "billing", "credit card",
              "customer_verification", "more credits", "insufficient credit", "insufficient_quota", "out of credit",
              "exceeded your current quota"})
    ensures ContainsAny(msg, RATE_LIMIT_FIRST) <==> Says(msg, {
              "429", "too many requests", "rate limit", "rate-limit", "resource_exhausted"})
    ensures IsQuota(msg) <==> Says(msg, {
              "429", "too many requests", "rate limit", "rate-limit", "resource_exhausted", "quota"})
  {
    hide Says, ContainsAny;
    SaysOneOf(msg, KEY_FATAL, {
      "401", "402", "403", "unauthorized", "forbidden", "permission", "invalid api key", "authentication",
      "api key not valid", "reported as leaked", "payment required", "billing", "credit card",
      "customer_verification", "more credits", "insufficient credit", "insufficient_quota", "out of credit",
      "exceeded your current quota"});
    SaysOneOf(msg, RATE_LIMIT_FIRST, {"429", "too many requests", "rate limit", "rate-limit", "resource_exhausted"});
    SaysOneOf(msg, QUOTA_WORDS, {
      "429", "too many requests", "rate limit", "rate-limit", "resource_exhausted", "quota"});
  }

  /** A message that speaks of rate limiting never condemns a key, whatever else it says; any other condemns it
      exactly on a fatal phrase; a key is busy exactly on rate limiting, or on a quota without a fatal phrase;
      and a quota message always says something. */
  lemma {:induction false} ClassifyMeaning(msg: string)
    ensures Classify(msg) == DeadKey <==> ContainsAny(msg, KEY_FATAL) && !ContainsAny(msg, RATE_LIMIT_FIRST)
    ensures Classify(msg) == BusyKey <==>
            ContainsAny(msg, RATE_LIMIT_FIRST) || (IsQuota(msg) && !ContainsAny(msg, KEY_FATAL))
    ensures IsQuota(msg) ==> Classify(msg) != Nothing
  {
    hide ContainsAny, IsQuota, Says;
    LimitedMeaning(msg);
    EmptyMessage();
  }

  /** Rate limiting and quotas are spoken of in the same words, whether a key or a platform is judged. */
  lemma {:induction false} LimitedMeaning(msg: string)
    ensures ContainsAny(msg, RATE_LIMITED) <==> IsQuota(msg)
    ensures ContainsAny(msg, RATE_LIMIT_FIRST) ==> IsQuota(msg)
  {
    hide ContainsAny;
    SameWords(msg, RATE_LIMITED, QUOTA_WORDS);
    SameWords(msg, QUOTA_WORDS, RATE_LIMITED);
    SameWords(msg, RATE_LIMIT_FIRST, QUOTA_WORDS);
  }

  lemma {:induction false} SameWords(msg: string, a: seq<string>, b: seq<string>)
    requires forall w :: w in a ==> w in b
    ensures ContainsAny(msg, a) ==> ContainsAny(msg, b)
  {
    if k :| 0 <= k < |a| && Contains(msg, a[k]) {
      assert a[k] in b;
      var j :| 0 <= j < |b| && b[j] == a[k];
    }
  }

  lemma {:induction false} EmptyMessage()
    ensures !ContainsAny("", KEY_FATAL) && !ContainsAny("", RATE_LIMIT_FIRST) && !IsQuota("")
  {
    hide ContainsAny;
    NothingIsSaid(KEY_FATAL);
    NothingIsSaid(QUOTA_WORDS);
    NothingIsSaid(RATE_LIMIT_FIRST);
  }

  /** The errors after which a key is cooled, and those that say the model is unknown. */
  lemma {:induction false} RetryMeaning(msg: string)
    ensures IsRetryable(msg) <==> Says(msg, {
              "429", "rate limit", "too many requests", "quota", "timeout", "timed out", "503", "unavailable", "500",
              "internal server error", "connection", "404", "not found", "402", "payment", "empty", "no content"})
    ensures IsNotFound(msg) <==> Says(msg, {"404", "not found"})
  {
    hide Says, ContainsAny;
    SaysOneOf(msg, RETRYABLE, {
      "429", "rate limit", "too many requests", "quota", "timeout", "timed out", "503", "unavailable", "500",
      "internal server error", "connection", "404", "not found", "402", "payment", "empty", "no content"});
    SaysOneOf(msg, NOT_FOUND, {"404", "not found"});
  }

  lemma {:induction false} SaysOneOf(msg: string, list: seq<string>, words: set<string>)
    requires forall w :: w in list <==> w in words
    ensures ContainsAny(msg, list) <==> Says(msg, words)
  {
    if k :| 0 <= k < |list| && Contains(msg, list[k]) {
      assert list[k] in words;
    }
    if w :| w in words && Contains(msg, w) {
      assert w in list;
      var k :| 0 <= k < |list| && list[k] == w;
    }
  }

  /** An empty message contains none of some words that are not empty. */
  lemma {:induction false} NothingIsSaid(words: seq<string>)
    requires "" !in words
    ensures !ContainsAny("", words)
  {
  }
}
