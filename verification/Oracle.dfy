/** Which oracle serves a randomness commit: the program decides, the caller only proves oracles dead. */
module Oracle {
  import opened Base
  import opened Arithmetic
  import opened LittleEndian
  import Selection

  type i64 = x: int | -0x8000_0000_0000_0000 <= x <= 0x7FFF_FFFF_FFFF_FFFF

  const QUEUE_SLOTS: nat := 78
  const MAX_ORACLE_HEARTBEAT_AGE_SECS: i64 := 3_600

  /** The oracle list of the queue account: 78 key slots, how many are in use, and the rotation index. */
  datatype QueueData = QueueData(keys: seq<Key>, len: u32, curr: u32)
  type Queue = q: QueueData | |q.keys| == QUEUE_SLOTS witness QueueData(seq(QUEUE_SLOTS, _ => DEFAULT_KEY), 0, 0)

  /** Last heartbeat of every account that is an oracle account. */
  type Heartbeats = map<Key, i64>

  function SaturatingSub(a: i64, b: i64): i64 {
    if a - b > 0x7FFF_FFFF_FFFF_FFFF then 0x7FFF_FFFF_FFFF_FFFF
    else if a - b < -0x8000_0000_0000_0000 then -0x8000_0000_0000_0000
    else a - b
  }

  predicate HeartbeatIsFresh(lastHeartbeat: i64, now: i64) {
    SaturatingSub(now, lastHeartbeat) <= MAX_ORACLE_HEARTBEAT_AGE_SECS
  }

  predicate IsFresh(key: Key, heartbeats: Heartbeats, now: i64) {
    key in heartbeats && HeartbeatIsFresh(heartbeats[key], now)
  }

  predicate IsStale(key: Key, heartbeats: Heartbeats, now: i64) {
    key in heartbeats && !HeartbeatIsFresh(heartbeats[key], now)
  }

  /** The supplied accounts that do prove an oracle stale. */
  function StaleKeys(proofs: seq<Key>, heartbeats: Heartbeats, now: i64): seq<Key> {
    if proofs == [] then []
    else (if IsStale(proofs[0], heartbeats, now) then [proofs[0]] else []) + StaleKeys(proofs[1..], heartbeats, now)
  }

  lemma {:induction false} StaleKeysAre(proofs: seq<Key>, heartbeats: Heartbeats, now: i64)
    ensures forall k :: k in StaleKeys(proofs, heartbeats, now) <==> k in proofs && IsStale(k, heartbeats, now)
  {
    if proofs != [] {
      StaleKeysAre(proofs[1..], heartbeats, now);
      assert proofs == [proofs[0]] + proofs[1..];
    }
  }

  const ORACLE_DOMAIN: Bytes := Selection.Ascii("hybrid_vault/oracle")

  function Spread(sha: Hash, vault: Digest, seqNo: u64): u64 {
    U64At(sha(ORACLE_DOMAIN + vault + Encode(seqNo, 8)), 0)
  }

  function Start(sha: Hash, queue: Queue, vault: Digest, seqNo: u64, used: seq<Key>): (start: nat)
    requires queue.len > 0
    ensures start < queue.len
  {
    Remainder(Remainder(queue.curr, queue.len) + Remainder(Spread(sha, vault, seqNo), queue.len) + |used|, queue.len)
  }

  /** The place `step` places after `start`, going round a list of `len`. */
  function Place(start: nat, step: nat, len: nat): (i: nat)
    requires start < len && step < len
    ensures i < len
  {
    if start + step < len then start + step else start + step - len
  }

  lemma PlaceIsModulo(start: nat, step: nat, len: nat)
    requires start < len && step < len
    ensures (start + step) % len == Place(start, step, len)
  {
    ModUnique(start + step, if start + step < len then 0 else 1, len, Place(start, step, len));
  }

  function KeyAt(queue: Queue, start: nat, step: nat): Key
    requires start < queue.len <= QUEUE_SLOTS && step < queue.len
  {
    queue.keys[Place(start, step, queue.len)]
  }

  predicate Selectable(key: Key, used: seq<Key>, stale: seq<Key>) {
    key != DEFAULT_KEY && key !in used && key !in stale
  }

  /** The first selectable key from `step` places after the start on. */
  function Scan(queue: Queue, start: nat, step: nat, used: seq<Key>, stale: seq<Key>): Result<Key>
    requires start < queue.len <= QUEUE_SLOTS && step <= queue.len
    decreases queue.len - step
  {
    if step == queue.len then Err(NoFreshOracle)
    else if Selectable(KeyAt(queue, start, step), used, stale) then Ok(KeyAt(queue, start, step))
    else Scan(queue, start, step + 1, used, stale)
  }

  function Select(sha: Hash, queue: Queue, vault: Digest, seqNo: u64, used: seq<Key>, stale: seq<Key>): Result<Key> {
    if 0 < queue.len <= QUEUE_SLOTS then Scan(queue, Start(sha, queue, vault, seqNo, used), 0, used, stale)
      else Err(NoFreshOracle)
  }

  /** The scan over the key list. */
  method SelectOracleIn(sha: Hash, queue: Queue, vault: Digest, seqNo: u64, used: seq<Key>, stale: seq<Key>)
    returns (r: Result<Key>)
    ensures r == Select(sha, queue, vault, seqNo, used, stale)
    ensures r.Ok? ==>
              && 0 < queue.len <= 78
              && exists step: nat :: step < queue.len && FirstTurn(sha, queue, vault, seqNo, used, stale, step)
                                     && r.value == Turn(sha, queue, vault, seqNo, used, step)
  {
    if Select(sha, queue, vault, seqNo, used, stale).Ok? {
      SelectIsFirstTurn(sha, queue, vault, seqNo, used, stale, Select(sha, queue, vault, seqNo, used, stale).value);
    }
    hide Turn, FirstTurn;
    if !(0 < queue.len <= QUEUE_SLOTS) {
      return Err(NoFreshOracle);
    }
    RemainderIsMod(queue.curr, queue.len);
    RemainderIsMod(Spread(sha, vault, seqNo), queue.len);
    RemainderIsMod(queue.curr % queue.len + Spread(sha, vault, seqNo) % queue.len + |used|, queue.len);
    var start: nat := (queue.curr % queue.len + Spread(sha, vault, seqNo) % queue.len + |used|) % queue.len;
    for step := 0 to queue.len
      invariant Scan(queue, start, 0, used, stale) == Scan(queue, start, step, used, stale)
    {
      PlaceIsModulo(start, step, queue.len);
      var key := queue.keys[(start + step) % queue.len];
      if key != DEFAULT_KEY && key !in used && key !in stale {
        return Ok(key);
      }
    }
    r := Err(NoFreshOracle);
  }

  /** `key` stands at some place of the cyclic order where `ok` holds, and `ok` fails at every earlier place. */
  ghost predicate FirstWhere(queue: Queue, start: nat, key: Key, ok: Key -> bool)
    requires start < queue.len <= QUEUE_SLOTS
  {
    exists step: nat :: step < queue.len && KeyAt(queue, start, step) == key && ok(key)
                        && forall earlier: nat :: earlier < step ==> !ok(KeyAt(queue, start, earlier))
  }

  lemma {:induction false} ScanIsFirst(queue: Queue, start: nat, step: nat, used: seq<Key>, stale: seq<Key>)
    requires start < queue.len <= QUEUE_SLOTS && step <= queue.len
    requires forall earlier: nat :: earlier < step ==>
                          !Selectable(KeyAt(queue, start, earlier), used, stale)
    ensures var r := Scan(queue, start, step, used, stale);
            if r.Ok? then FirstWhere(queue, start, r.value, (k: Key) => Selectable(k, used, stale))
            else
              && r == Err(NoFreshOracle)
              && forall s: nat :: s < queue.len ==> !Selectable(KeyAt(queue, start, s), used, stale)
    decreases queue.len - step
  {
    if step < queue.len && !Selectable(KeyAt(queue, start, step), used, stale) {
      ScanIsFirst(queue, start, step + 1, used, stale);
    }
  }

  /** Going round once visits every place of the list. */
  lemma EveryPlaceVisited(queue: Queue, start: nat, i: nat)
    requires start < queue.len <= QUEUE_SLOTS && i < queue.len
    ensures exists step: nat :: step < queue.len && Place(start, step, queue.len) == i
  {
    var step := if start <= i then i - start else i - start + queue.len;
    assert Place(start, step, queue.len) == i;
  }

  /**
   The chosen oracle is the first selectable key in cyclic order from the start; none is chosen
   exactly when the list holds no selectable key.
   */
  lemma SelectIsFirstSelectable(sha: Hash, queue: Queue, vault: Digest, seqNo: u64, used: seq<Key>, stale: seq<Key>)
    requires 0 < queue.len <= QUEUE_SLOTS
    ensures var r := Select(sha, queue, vault, seqNo, used, stale);
            && (r.Ok? <==> exists i: nat :: i < queue.len && Selectable(queue.keys[i], used, stale))
            && (r.Ok? ==> FirstWhere(queue, Start(sha, queue, vault, seqNo, used), r.value,
                                     (k: Key) => Selectable(k, used, stale)))
            && (r.Err? ==> r == Err(NoFreshOracle))
  {
    var start := Start(sha, queue, vault, seqNo, used);
    ScanIsFirst(queue, start, 0, used, stale);
    var r := Scan(queue, start, 0, used, stale);
    if r.Ok? {
      var step: nat :| step < queue.len && KeyAt(queue, start, step) == r.value && Selectable(r.value, used, stale);
      assert Selectable(queue.keys[Place(start, step, queue.len)], used, stale);
    } else {
      forall i: nat | i < queue.len
        ensures !Selectable(queue.keys[i], used, stale)
      {
        EveryPlaceVisited(queue, start, i);
        var step: nat :| step < queue.len && Place(start, step, queue.len) == i;
        assert KeyAt(queue, start, step) == queue.keys[i];
      }
    }
  }

  // ----- the choice in plain arithmetic

  /** The key `step` places on from the sum of rotation index, request hash and uses, counted round the list. */
  function Turn(sha: Hash, queue: Queue, vault: Digest, seqNo: u64, used: seq<Key>, step: nat): Key
    requires 0 < queue.len <= 78
  {
    var hash := sha(Selection.Ascii("hybrid_vault/oracle") + vault + EightBytes(seqNo));
    queue.keys[(queue.curr + U64At(hash, 0) + |used| + step) % queue.len]
  }

  lemma TurnIsPlace(sha: Hash, queue: Queue, vault: Digest, seqNo: u64, used: seq<Key>, step: nat)
    requires 0 < queue.len <= 78 && step < queue.len
    ensures Turn(sha, queue, vault, seqNo, used, step) == KeyAt(queue, Start(sha, queue, vault, seqNo, used), step)
  {
    hide U64At, Remainder, Place;
    EncodedBytes(seqNo);
    var x, y, n := queue.curr as nat, Spread(sha, vault, seqNo) as nat, queue.len as nat;
    RemainderIsMod(x, n);
    RemainderIsMod(y, n);
    RemainderIsMod(x % n + y % n + |used|, n);
    StartIsSum(x, y, |used|, step, n);
    PlaceIsModulo(Start(sha, queue, vault, seqNo, used), step, n);
  }

  lemma StartIsSum(x: nat, y: nat, u: nat, step: nat, n: nat)
    requires n > 0
    ensures ((x % n + y % n + u) % n + step) % n == (x + y + (u + step)) % n
  {
    ReduceFirst(x % n + y % n + u, step, n);
    ReduceFirst(x, y % n + u + step, n);
    ReduceFirst(y, x + u + step, n);
  }

  /** The key `step` places on is the first that is not zero, not used and not proved stale. */
  ghost predicate FirstTurn(sha: Hash, queue: Queue, vault: Digest, seqNo: u64, used: seq<Key>, stale: seq<Key>,
                            step: nat)
    requires 0 < queue.len <= 78
  {
    && Turn(sha, queue, vault, seqNo, used, step) != 0
    && Turn(sha, queue, vault, seqNo, used, step) !in used + stale
    && forall earlier: nat :: earlier < step ==>
         Turn(sha, queue, vault, seqNo, used, earlier) == 0
         || Turn(sha, queue, vault, seqNo, used, earlier) in used + stale
  }

  /** Which key is chosen, in plain arithmetic: the first usable one from the rotation index plus hash plus uses on. */
  lemma SelectIsFirstTurn(sha: Hash, queue: Queue, vault: Digest, seqNo: u64, used: seq<Key>, stale: seq<Key>, key: Key)
    ensures Select(sha, queue, vault, seqNo, used, stale) == Ok(key)
            <==> && 0 < queue.len <= 78
                 && exists step: nat :: step < queue.len && FirstTurn(sha, queue, vault, seqNo, used, stale, step)
                                        && key == Turn(sha, queue, vault, seqNo, used, step)
    ensures Select(sha, queue, vault, seqNo, used, stale) == Err(NoFreshOracle)
            <==> !(0 < queue.len <= 78)
                 || forall i: nat :: i < queue.len ==> queue.keys[i] == 0 || queue.keys[i] in used + stale
  {
    hide Start, KeyAt, Turn;
    if 0 < queue.len <= 78 {
      var start := Start(sha, queue, vault, seqNo, used);
      forall step: nat | step < queue.len
        ensures Turn(sha, queue, vault, seqNo, used, step) == KeyAt(queue, start, step)
      {
        TurnIsPlace(sha, queue, vault, seqNo, used, step);
      }
      SelectIsFirstSelectable(sha, queue, vault, seqNo, used, stale);
      if step: nat :| step < queue.len && FirstTurn(sha, queue, vault, seqNo, used, stale, step) {
        assert forall earlier: nat :: earlier < step ==> !Selectable(KeyAt(queue, start, earlier), used, stale) by {
          assert forall earlier: nat :: earlier < step ==>
                   Turn(sha, queue, vault, seqNo, used, earlier) == KeyAt(queue, start, earlier);
        }
        ScanStops(queue, start, 0, step, used, stale);
      }
    }
  }

  // ----- the oracle checks of a commit

  /** What a commit demands of the oracle account the caller passes. */
  function CommitOracle(sha: Hash, queue: Queue, vault: Digest, seqNo: u64, used: seq<Key>,
                        proofs: seq<Key>, heartbeats: Heartbeats, now: i64, oracle: Key): Status {
    var chosen :- Select(sha, queue, vault, seqNo, used, StaleKeys(proofs, heartbeats, now));
    var _ :- Need(oracle == chosen, WrongOracle);
    var _ :- Need(oracle in heartbeats, WrongOracle);
    Need(HeartbeatIsFresh(heartbeats[oracle], now), OracleStale)
  }

  /** A heartbeat is fresh for an hour; the saturation of the subtraction never matters. */
  lemma FreshForAnHour(lastHeartbeat: i64, now: i64)
    ensures HeartbeatIsFresh(lastHeartbeat, now) <==> now - lastHeartbeat <= 3_600
  {
  }

  /** A supplied proof shows that `key` is an oracle whose heartbeat is more than an hour old. */
  predicate ProvedDead(key: Key, proofs: seq<Key>, heartbeats: Heartbeats, now: i64) {
    key in proofs && key in heartbeats && now as int - heartbeats[key] as int > 3_600
  }

  /** The key `step` places on can be skipped: it is zero, used, or proved dead. */
  predicate Skippable(sha: Hash, queue: Queue, vault: Digest, seqNo: u64, used: seq<Key>, proofs: seq<Key>,
                      heartbeats: Heartbeats, now: i64, step: nat)
    requires 0 < queue.len <= 78
  {
    var key := Turn(sha, queue, vault, seqNo, used, step);
    key == 0 || key in used || ProvedDead(key, proofs, heartbeats, now)
  }

  /** `oracle` is the first key that cannot be skipped. */
  ghost predicate FirstInTurn(sha: Hash, queue: Queue, vault: Digest, seqNo: u64, used: seq<Key>, proofs: seq<Key>,
                              heartbeats: Heartbeats, now: i64, oracle: Key)
  {
    && 0 < queue.len <= 78
    && exists step: nat ::
         && step < queue.len && oracle == Turn(sha, queue, vault, seqNo, used, step)
         && !Skippable(sha, queue, vault, seqNo, used, proofs, heartbeats, now, step)
         && forall earlier: nat :: earlier < step ==>
              Skippable(sha, queue, vault, seqNo, used, proofs, heartbeats, now, earlier)
  }

  lemma SelectSkips(sha: Hash, queue: Queue, vault: Digest, seqNo: u64, used: seq<Key>, proofs: seq<Key>,
                    heartbeats: Heartbeats, now: i64, oracle: Key)
    ensures Select(sha, queue, vault, seqNo, used, StaleKeys(proofs, heartbeats, now)) == Ok(oracle)
            <==> FirstInTurn(sha, queue, vault, seqNo, used, proofs, heartbeats, now, oracle)
    ensures Select(sha, queue, vault, seqNo, used, StaleKeys(proofs, heartbeats, now)) == Err(NoFreshOracle)
            <==> !(0 < queue.len <= 78)
                 || forall i: nat :: i < queue.len ==>
                      queue.keys[i] == 0 || queue.keys[i] in used
                      || ProvedDead(queue.keys[i], proofs, heartbeats, now)
  {
    hide Select, Turn;
    var stale := StaleKeys(proofs, heartbeats, now);
    SelectIsFirstTurn(sha, queue, vault, seqNo, used, stale, oracle);
    StaleKeysAre(proofs, heartbeats, now);
    assert forall k :: k in used + stale <==> k in used || ProvedDead(k, proofs, heartbeats, now);
    if 0 < queue.len <= 78 {
      forall step: nat
        ensures Skippable(sha, queue, vault, seqNo, used, proofs, heartbeats, now, step)
                <==> Turn(sha, queue, vault, seqNo, used, step) == 0
                     || Turn(sha, queue, vault, seqNo, used, step) in used + stale
      {
      }
      hide Skippable;
    }
  }

  /**
   When a commit is accepted, said of the accounts alone: the oracle passed in is the first key in turn that cannot be
   skipped, it is an oracle account, and its own heartbeat is at most an hour old. Otherwise, the error says which
   of these fails first.
   */
  lemma CommitAcceptsExactly(sha: Hash, queue: Queue, vault: Digest, seqNo: u64, used: seq<Key>, proofs: seq<Key>,
                             heartbeats: Heartbeats, now: i64, oracle: Key)
    ensures var r := CommitOracle(sha, queue, vault, seqNo, used, proofs, heartbeats, now, oracle);
            var first := FirstInTurn(sha, queue, vault, seqNo, used, proofs, heartbeats, now, oracle);
            && (r.Ok? <==> first && oracle in heartbeats && now - heartbeats[oracle] <= 3_600)
            && (r == Err(OracleStale) <==> first && oracle in heartbeats && now - heartbeats[oracle] > 3_600)
            && (r == Err(NoFreshOracle)
                <==> !(0 < queue.len <= 78)
                     || forall i: nat :: i < queue.len ==>
                          queue.keys[i] == 0 || queue.keys[i] in used
                          || ProvedDead(queue.keys[i], proofs, heartbeats, now))
            && (r.Err? ==> r.error in {NoFreshOracle, WrongOracle, OracleStale})
  {
    hide Select, FirstInTurn, ProvedDead, StaleKeys;
    SelectSkips(sha, queue, vault, seqNo, used, proofs, heartbeats, now, oracle);
    SelectFails(sha, queue, vault, seqNo, used, StaleKeys(proofs, heartbeats, now));
  }

  lemma SelectFails(sha: Hash, queue: Queue, vault: Digest, seqNo: u64, used: seq<Key>, stale: seq<Key>)
    ensures Select(sha, queue, vault, seqNo, used, stale).Err? ==>
              Select(sha, queue, vault, seqNo, used, stale) == Err(NoFreshOracle)
  {
    hide Start;
    if 0 < queue.len <= 78 {
      SelectIsFirstSelectable(sha, queue, vault, seqNo, used, stale);
    }
  }

  /** A key that could serve this request now. */
  predicate Live(key: Key, used: seq<Key>, heartbeats: Heartbeats, now: i64) {
    key != DEFAULT_KEY && key !in used && IsFresh(key, heartbeats, now)
  }

  /** Whatever stale proofs are supplied, an accepted commit uses the first live oracle in cyclic order. */
  lemma CommitUsesFirstLive(sha: Hash, queue: Queue, vault: Digest, seqNo: u64, used: seq<Key>,
                            proofs: seq<Key>, heartbeats: Heartbeats, now: i64, oracle: Key)
    requires CommitOracle(sha, queue, vault, seqNo, used, proofs, heartbeats, now, oracle).Ok?
    ensures 0 < queue.len <= QUEUE_SLOTS
    ensures FirstWhere(queue, Start(sha, queue, vault, seqNo, used), oracle, (k: Key) => Live(k, used, heartbeats, now))
  {
    var stale := StaleKeys(proofs, heartbeats, now);
    var start := Start(sha, queue, vault, seqNo, used);
    SelectIsFirstSelectable(sha, queue, vault, seqNo, used, stale);
    StaleKeysAre(proofs, heartbeats, now);
    var step: nat :| step < queue.len && KeyAt(queue, start, step) == oracle && Selectable(oracle, used, stale)
                     && forall earlier: nat :: earlier < step ==>
                          !Selectable(KeyAt(queue, start, earlier), used, stale);
    forall earlier: nat | earlier < step
      ensures !Live(KeyAt(queue, start, earlier), used, heartbeats, now)
    {
      assert !Selectable(KeyAt(queue, start, earlier), used, stale);
    }
  }

  /** The caller never chooses: any two accepted commits of the same request at the same time use the same oracle. */
  lemma CallerCannotChoose(sha: Hash, queue: Queue, vault: Digest, seqNo: u64, used: seq<Key>, heartbeats: Heartbeats,
                           now: i64,
                           proofs: seq<Key>, oracle: Key, proofs': seq<Key>, oracle': Key)
    requires CommitOracle(sha, queue, vault, seqNo, used, proofs, heartbeats, now, oracle).Ok?
    requires CommitOracle(sha, queue, vault, seqNo, used, proofs', heartbeats, now, oracle').Ok?
    ensures oracle == oracle'
  {
    CommitUsesFirstLive(sha, queue, vault, seqNo, used, proofs, heartbeats, now, oracle);
    CommitUsesFirstLive(sha, queue, vault, seqNo, used, proofs', heartbeats, now, oracle');
    var start := Start(sha, queue, vault, seqNo, used);
    var live := (k: Key) => Live(k, used, heartbeats, now);
    var a: nat :| a < queue.len && KeyAt(queue, start, a) == oracle && live(oracle)
                  && forall earlier: nat :: earlier < a ==> !live(KeyAt(queue, start, earlier));
    var b: nat :| b < queue.len && KeyAt(queue, start, b) == oracle' && live(oracle')
                  && forall earlier: nat :: earlier < b ==> !live(KeyAt(queue, start, earlier));
    assert !(a < b);
    assert !(b < a);
  }

  lemma ConcatIsAssociative<T>(a: seq<T>, b: seq<T>, c: seq<T>)
    ensures a + (b + c) == a + b + c
  {
  }

  lemma {:induction false} StaleKeysConcat(a: seq<Key>, b: seq<Key>, heartbeats: Heartbeats, now: i64)
    ensures StaleKeys(a + b, heartbeats, now) == StaleKeys(a, heartbeats, now) + StaleKeys(b, heartbeats, now)
  {
    if a == [] {
      assert a + b == b;
    } else {
      var head := if IsStale(a[0], heartbeats, now) then [a[0]] else [];
      assert StaleKeys(a, heartbeats, now) == head + StaleKeys(a[1..], heartbeats, now);
      assert (a + b)[1..] == a[1..] + b && (a + b)[0] == a[0];
      assert StaleKeys(a + b, heartbeats, now) == head + StaleKeys((a + b)[1..], heartbeats, now);
      hide *;
      StaleKeysConcat(a[1..], b, heartbeats, now);
      ConcatIsAssociative(head, StaleKeys(a[1..], heartbeats, now), StaleKeys(b, heartbeats, now));
    }
  }

  /** A fresh oracle supplied as a proof, anywhere among the proofs, changes neither the choice nor its acceptance. */
  lemma FreshProofIsIgnored(sha: Hash, queue: Queue, vault: Digest, seqNo: u64, used: seq<Key>, before: seq<Key>,
                            extra: Key, after: seq<Key>, heartbeats: Heartbeats, now: i64, oracle: Key)
    requires !IsStale(extra, heartbeats, now)
    ensures Select(sha, queue, vault, seqNo, used, StaleKeys(before + [extra] + after, heartbeats, now))
            == Select(sha, queue, vault, seqNo, used, StaleKeys(before + after, heartbeats, now))
    ensures CommitOracle(sha, queue, vault, seqNo, used, before + [extra] + after, heartbeats, now, oracle)
            == CommitOracle(sha, queue, vault, seqNo, used, before + after, heartbeats, now, oracle)
  {
    hide Select, IsStale;
    StaleKeysConcat(before + [extra], after, heartbeats, now);
    StaleKeysConcat(before, [extra], heartbeats, now);
    StaleKeysConcat(before, after, heartbeats, now);
    var a := StaleKeys(before, heartbeats, now);
    assert StaleKeys([extra], heartbeats, now) == [] && a + [] == a;
  }

  /**
   A listed key that serves nobody and cannot be skipped: unused, but not an oracle account, so no proof about it
   exists.
   */
  predicate Stranger(key: Key, used: seq<Key>, heartbeats: Heartbeats) {
    key != DEFAULT_KEY && key !in used && key !in heartbeats
  }

  /**
   The first live oracle, `step` places after the start, can be reached exactly when no stranger is listed before
   it; supplying the whole list as proofs is then enough. A stranger before it makes every commit fail.
   */
  lemma FirstLiveIsReachable(sha: Hash, queue: Queue, vault: Digest, seqNo: u64, used: seq<Key>, heartbeats: Heartbeats,
                             now: i64, step: nat)
    requires step < queue.len <= QUEUE_SLOTS
    requires var start := Start(sha, queue, vault, seqNo, used);
             && Live(KeyAt(queue, start, step), used, heartbeats, now)
             && forall earlier: nat :: earlier < step ==> !Live(KeyAt(queue, start, earlier), used, heartbeats, now)
    ensures var start := Start(sha, queue, vault, seqNo, used);
            (exists proofs, oracle :: CommitOracle(sha, queue, vault, seqNo, used, proofs, heartbeats, now, oracle).Ok?)
            <==> forall earlier: nat :: earlier < step ==> !Stranger(KeyAt(queue, start, earlier), used, heartbeats)
    ensures var start := Start(sha, queue, vault, seqNo, used);
            (forall earlier: nat :: earlier < step ==> !Stranger(KeyAt(queue, start, earlier), used, heartbeats)) ==>
              CommitOracle(sha, queue, vault, seqNo, used, queue.keys, heartbeats, now, KeyAt(queue, start, step)).Ok?
  {
    hide Start, Place;
    var start := Start(sha, queue, vault, seqNo, used);
    if forall earlier: nat :: earlier < step ==> !Stranger(KeyAt(queue, start, earlier), used, heartbeats) {
      ListProvesEnough(sha, queue, vault, seqNo, used, heartbeats, now, step);
    } else {
      var stranger: nat :| stranger < step && Stranger(KeyAt(queue, start, stranger), used, heartbeats);
      forall proofs, oracle
        ensures !CommitOracle(sha, queue, vault, seqNo, used, proofs, heartbeats, now, oracle).Ok?
      {
        StrangerBlocks(sha, queue, vault, seqNo, used, proofs, heartbeats, now, oracle, step, stranger);
      }
    }
  }

  lemma ListProvesEnough(sha: Hash, queue: Queue, vault: Digest, seqNo: u64, used: seq<Key>, heartbeats: Heartbeats,
                         now: i64, step: nat)
    requires step < queue.len <= QUEUE_SLOTS
    requires var start := Start(sha, queue, vault, seqNo, used);
             && Live(KeyAt(queue, start, step), used, heartbeats, now)
             && forall earlier: nat :: earlier < step ==> !Live(KeyAt(queue, start, earlier), used, heartbeats, now)
                                                          && !Stranger(KeyAt(queue, start, earlier), used, heartbeats)
    ensures var start := Start(sha, queue, vault, seqNo, used);
            CommitOracle(sha, queue, vault, seqNo, used, queue.keys, heartbeats, now, KeyAt(queue, start, step))
              == Ok(())
  {
    hide Start, Place, SaturatingSub;
    var start, stale := Start(sha, queue, vault, seqNo, used), StaleKeys(queue.keys, heartbeats, now);
    StaleKeysAre(queue.keys, heartbeats, now);
    forall earlier: nat | earlier <= step
      ensures Selectable(KeyAt(queue, start, earlier), used, stale) <==> earlier == step
    {
      assert KeyAt(queue, start, earlier) in queue.keys;
    }
    ScanStops(queue, start, 0, step, used, stale);
  }

  /** The scan stops at the first selectable place. */
  lemma {:induction false} ScanStops(queue: Queue, start: nat, from: nat, step: nat, used: seq<Key>, stale: seq<Key>)
    requires start < queue.len <= QUEUE_SLOTS && from <= step < queue.len
    requires Selectable(KeyAt(queue, start, step), used, stale)
    requires forall earlier: nat :: earlier < step ==>
                          !Selectable(KeyAt(queue, start, earlier), used, stale)
    ensures Scan(queue, start, from, used, stale) == Ok(KeyAt(queue, start, step))
    decreases step - from
  {
    hide Place;
    if from < step {
      ScanStops(queue, start, from + 1, step, used, stale);
    }
  }

  lemma StrangerBlocks(sha: Hash, queue: Queue, vault: Digest, seqNo: u64, used: seq<Key>, proofs: seq<Key>,
                       heartbeats: Heartbeats, now: i64, oracle: Key, step: nat, stranger: nat)
    requires stranger < step < queue.len <= QUEUE_SLOTS
    requires var start := Start(sha, queue, vault, seqNo, used);
             && Stranger(KeyAt(queue, start, stranger), used, heartbeats)
             && forall earlier: nat :: earlier < step ==> !Live(KeyAt(queue, start, earlier), used, heartbeats, now)
    ensures !CommitOracle(sha, queue, vault, seqNo, used, proofs, heartbeats, now, oracle).Ok?
  {
    hide Start, Place, SaturatingSub;
    var start, stale := Start(sha, queue, vault, seqNo, used), StaleKeys(proofs, heartbeats, now);
    StaleKeysAre(proofs, heartbeats, now);
    assert Selectable(KeyAt(queue, start, stranger), used, stale);
    ScanIsFirst(queue, start, 0, used, stale);
    var chosen := Scan(queue, start, 0, used, stale).value;
    var place: nat :| place < queue.len && KeyAt(queue, start, place) == chosen && Selectable(chosen, used, stale)
                      && forall earlier: nat :: earlier < place ==>
                           !Selectable(KeyAt(queue, start, earlier), used, stale);
    assert !(stranger < place);
    assert !Live(chosen, used, heartbeats, now);
  }
}
