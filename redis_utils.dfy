/**
 * The live timer store: per user, the id of the task whose timer is running and
 * the time it started, kept in Redis under two namespaced keys, plus the
 * seconds-to-HH:MM:SS helper used when reporting elapsed time.
 */
module RedisUtils {
  import opened Wrappers
  import opened Text
  import opened DateTimes

  /** The Redis connection: a string-keyed store of string values. */
  class KeyValueStore {
    var data: map<string, string>

    constructor ()
      ensures data == map[]
    {
      data := map[];
    }

    /** `SET key value` */
    method Set(key: string, value: string)
      modifies this
      ensures data == old(data)[key := value]
    {
      data := data[key := value];
    }

    /** `DEL key` (a missing key is not an error) */
    method Delete(key: string)
      modifies this
      ensures data == old(data) - {key}
    {
      data := data - {key};
    }

    /** `GET key`, None for a missing key */
    method Get(key: string) returns (v: Option<string>)
      ensures v == Lookup(data, key)
    {
      v := Lookup(data, key);
    }

    /** `EXISTS key` */
    method Exists(key: string) returns (b: bool)
      ensures b <==> key in data
    {
      b := key in data;
    }
  }

  const EnvPrefix := "budgeting"

  /** `f"{ENV_PREFIX}:active_timer:{user_id}"` */
  function ActiveTimerKey(user: nat): string {
    EnvPrefix + ":active_timer:" + Dec(user)
  }

  /** `f"{ENV_PREFIX}:timer_start:{user_id}"` */
  function TimerStartKey(user: nat): string {
    EnvPrefix + ":timer_start:" + Dec(user)
  }

  /** The two key families never meet, and each names exactly one user. */
  lemma KeysAreDistinct(u: nat, v: nat)
    ensures ActiveTimerKey(u) != TimerStartKey(v)
    ensures ActiveTimerKey(u) == ActiveTimerKey(v) ==> u == v
    ensures TimerStartKey(u) == TimerStartKey(v) ==> u == v
  {
    assert ActiveTimerKey(u)[10] == 'a';
    assert TimerStartKey(v)[10] == 't';
    var pa, ps := EnvPrefix + ":active_timer:", EnvPrefix + ":timer_start:";
    if ActiveTimerKey(u) == ActiveTimerKey(v) {
      assert Dec(u) == ActiveTimerKey(u)[|pa|..] == ActiveTimerKey(v)[|pa|..] == Dec(v);
      DecInjective(u, v);
    }
    if TimerStartKey(u) == TimerStartKey(v) {
      assert Dec(u) == TimerStartKey(u)[|ps|..] == TimerStartKey(v)[|ps|..] == Dec(v);
      DecInjective(u, v);
    }
  }

  /** Every other user's keys differ from `u`'s two keys. */
  lemma OtherUsersKeys(u: nat)
    ensures forall v: nat :: v != u ==> ActiveTimerKey(v) != ActiveTimerKey(u) && ActiveTimerKey(v) != TimerStartKey(u)
    ensures forall v: nat :: v != u ==> TimerStartKey(v) != ActiveTimerKey(u) && TimerStartKey(v) != TimerStartKey(u)
  {
    forall v: nat | v != u
      ensures ActiveTimerKey(v) != ActiveTimerKey(u) && ActiveTimerKey(v) != TimerStartKey(u)
      ensures TimerStartKey(v) != ActiveTimerKey(u) && TimerStartKey(v) != TimerStartKey(u)
    {
      KeysAreDistinct(v, u);
      KeysAreDistinct(u, v);
    }
  }

  /** What `get_active_timer(user)` reads: the task id and the start text, each None when its key is absent. */
  function TimerOf(data: map<string, string>, user: nat): (Option<string>, Option<string>) {
    (Lookup(data, ActiveTimerKey(user)), Lookup(data, TimerStartKey(user)))
  }

  /** What `has_active_timer(user)` reads: whether the start key exists. */
  predicate HasTimer(data: map<string, string>, user: nat) {
    TimerStartKey(user) in data
  }

  /** The store after `set_active_timer(user, task, start)`. */
  function WithTimer(data: map<string, string>, user: nat, task: string, start: DateTime): (r: map<string, string>)
    ensures TimerOf(r, user) == (Some(task), Some(IsoFormat(start)))
    ensures HasTimer(r, user)
    ensures forall v: nat :: v != user ==> TimerOf(r, v) == TimerOf(data, v) && (HasTimer(r, v) <==> HasTimer(data, v))
    ensures r.Keys == data.Keys + {ActiveTimerKey(user), TimerStartKey(user)}
    ensures forall k :: k != ActiveTimerKey(user) && k != TimerStartKey(user) ==> Lookup(r, k) == Lookup(data, k)
  {
    KeysAreDistinct(user, user);
    OtherUsersKeys(user);
    data[ActiveTimerKey(user) := task][TimerStartKey(user) := IsoFormat(start)]
  }

  /** The store after `clear_active_timer(user)`. */
  function WithoutTimer(data: map<string, string>, user: nat): (r: map<string, string>)
    ensures TimerOf(r, user) == (None, None)
    ensures !HasTimer(r, user)
    ensures forall v: nat :: v != user ==> TimerOf(r, v) == TimerOf(data, v) && (HasTimer(r, v) <==> HasTimer(data, v))
    ensures r.Keys == data.Keys - {ActiveTimerKey(user), TimerStartKey(user)}
    ensures forall k :: k != ActiveTimerKey(user) && k != TimerStartKey(user) ==> Lookup(r, k) == Lookup(data, k)
  {
    OtherUsersKeys(user);
    data - {ActiveTimerKey(user), TimerStartKey(user)}
  }

  /** `has_active_timer(user_id)` */
  method HasActiveTimer(store: KeyValueStore, user: nat) returns (running: bool)
    ensures running <==> HasTimer(store.data, user)
  {
    running := store.Exists(TimerStartKey(user));
  }

  /** `set_active_timer(user_id, task_id, start_time)` */
  method SetActiveTimer(store: KeyValueStore, user: nat, task: string, start: DateTime)
    modifies store
    ensures store.data == WithTimer(old(store.data), user, task, start)
  {
    store.Set(ActiveTimerKey(user), task);
    store.Set(TimerStartKey(user), IsoFormat(start));
  }

  /** `clear_active_timer(user_id)` */
  method ClearActiveTimer(store: KeyValueStore, user: nat)
    modifies store
    ensures store.data == WithoutTimer(old(store.data), user)
  {
    store.Delete(ActiveTimerKey(user));
    store.Delete(TimerStartKey(user));
  }

  /** `get_active_timer(user_id)` */
  method GetActiveTimer(store: KeyValueStore, user: nat) returns (task: Option<string>, start: Option<string>)
    ensures (task, start) == TimerOf(store.data, user)
  {
    task := store.Get(ActiveTimerKey(user));
    start := store.Get(TimerStartKey(user));
  }

  /** `has_active_timer` looks only at the start key: writing or deleting the task key never changes its answer. */
  lemma HasTimerIgnoresTaskKey(data: map<string, string>, user: nat, task: string)
    ensures HasTimer(data[ActiveTimerKey(user) := task], user) <==> HasTimer(data, user)
    ensures HasTimer(data - {ActiveTimerKey(user)}, user) <==> HasTimer(data, user)
  {
    KeysAreDistinct(user, user);
  }

  /** A second `set_active_timer` for the same user simply replaces the first. */
  lemma SetOverwrites(data: map<string, string>, user: nat, t1: string, s1: DateTime, t2: string, s2: DateTime)
    ensures WithTimer(WithTimer(data, user, t1, s1), user, t2, s2) == WithTimer(data, user, t2, s2)
  {
    KeysAreDistinct(user, user);
  }

  /** Clearing undoes setting: nothing of the cleared entry remains. */
  lemma ClearAfterSet(data: map<string, string>, user: nat, task: string, start: DateTime)
    ensures WithoutTimer(WithTimer(data, user, task, start), user) == WithoutTimer(data, user)
  {
  }

  // ---------------------------------------------------------------------------
  // seconds_to_hms
  // ---------------------------------------------------------------------------

  datatype Hms = Hms(hours: int, minutes: int, seconds: int, formatted: string)

  /**
   * `seconds_to_hms(total_seconds)`. Python's `//` and `%` floor; with the
   * positive divisors used here they agree with Dafny's `/` and `%`.
   */
  function SecondsToHms(totalSeconds: int): (r: Hms)
    ensures r.hours * 3600 + r.minutes * 60 + r.seconds == totalSeconds
    ensures 0 <= r.minutes < 60 && 0 <= r.seconds < 60
    ensures totalSeconds >= 0 ==> r.hours >= 0
  {
    var hours := totalSeconds / 3600;
    var minutes := (totalSeconds % 3600) / 60;
    var seconds := totalSeconds % 60;
    assert totalSeconds % 3600 == minutes * 60 + seconds by {
      var rem := totalSeconds % 3600;
      assert totalSeconds == hours * 3600 + rem;
      assert totalSeconds == (hours * 60 + rem / 60) * 60 + rem % 60;
    }
    Hms(hours, minutes, seconds,
        FormatPadded(hours, 2) + ":" + FormatPadded(minutes, 2) + ":" + FormatPadded(seconds, 2))
  }

  /**
   * `f` is `h:m:s` with at least two digits of hours and exactly two of
   * minutes and of seconds, which together make `total` seconds.
   */
  predicate ReadsBackAs(f: string, total: int) {
    && |f| >= 8 && f[|f| - 3] == ':' && f[|f| - 6] == ':'
    && AllDigits(f[..|f| - 6]) && AllDigits(f[|f| - 5..|f| - 3]) && AllDigits(f[|f| - 2..])
    && Value(f[..|f| - 6]) * 3600 + Value(f[|f| - 5..|f| - 3]) * 60 + Value(f[|f| - 2..]) == total
  }

  /** Joining digit fields with ':' reads back as the seconds they stand for. */
  lemma TimeFields(h: string, m: string, s: string)
    requires |h| >= 2 && |m| == 2 && |s| == 2 && AllDigits(h) && AllDigits(m) && AllDigits(s)
    ensures ReadsBackAs(h + ":" + m + ":" + s, Value(h) * 3600 + Value(m) * 60 + Value(s))
  {
    var f := h + ":" + m + ":" + s;
    assert |f| == |h| + 6;
    assert f[..|h|] == h;
    assert f[|h| + 1..|h| + 3] == m;
    assert f[|h| + 4..] == s;
    assert f[|h|] == ':' && f[|h| + 3] == ':';
  }

  /** The formatted text reads back as the number of seconds it was made from. */
  lemma HmsFormattedReadsBack(totalSeconds: nat)
    ensures ReadsBackAs(SecondsToHms(totalSeconds).formatted, totalSeconds)
  {
    var r := SecondsToHms(totalSeconds);
    var hours: nat, minutes: nat, seconds: nat := r.hours, r.minutes, r.seconds;
    var h, m, s := ZeroPad(Dec(hours), 2), ZeroPad(Dec(minutes), 2), ZeroPad(Dec(seconds), 2);
    assert r.formatted == h + ":" + m + ":" + s by {
      assert FormatPadded(hours, 2) == h && FormatPadded(minutes, 2) == m && FormatPadded(seconds, 2) == s;
    }
    ValueOfZeroPad(hours, 2);
    ValueOfZeroPad(minutes, 2);
    ValueOfZeroPad(seconds, 2);
    DecLength(minutes);
    DecLength(seconds);
    TimeFields(h, m, s);
  }
}
