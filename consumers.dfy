/**
 * The task-timer websocket consumer: on connect it authenticates the socket
 * from a `token=` query parameter and joins the user's group; on a "start"
 * message it enforces at most one running timer per user against the timer
 * store.
 */
module Consumers {
  import opened Wrappers
  import opened Text
  import opened DateTimes
  import opened RedisUtils

  // ---------------------------------------------------------------------------
  // Query-string token
  // ---------------------------------------------------------------------------

  const TokenMarker := "token="

  /** `query_string.split('token=')[-1].split('&')[0]` when `'token=' in query_string`, else None. */
  function ExtractToken(queryString: string): (r: Option<string>)
    ensures r.None? <==> !Contains(queryString, TokenMarker)
    ensures r.Some? ==> !Contains(r.value, "&")
  {
    if Contains(queryString, TokenMarker) then
      var pieces := Split(queryString, TokenMarker);
      Some(Split(pieces[|pieces| - 1], "&")[0])
    else None
  }

  /** `token` is the text of `rest` up to (not including) its first '&'. */
  predicate UpToAmpersand(token: string, rest: string) {
    && !Contains(token, "&")
    && (rest == token || (|token| < |rest| && rest[..|token| + 1] == token + "&"))
  }

  lemma ThreeParts(a: string, b: string, c: string)
    ensures (a + b + c)[|a|..|a| + |b|] == b && (a + b + c)[|a| + |b|..] == c
  {
  }

  lemma SeparatorBetween(s: string, sep: string, head: string, last: string)
    requires s == head + sep + last
    ensures exists i :: OccursAt(s, sep, i) && s[i + |sep|..] == last
  {
    ThreeParts(head, sep, last);
    assert OccursAt(s, sep, |head|);
  }

  /** The last piece of a split is what follows some occurrence of the separator. */
  lemma LastPieceFollowsSeparator(s: string, sep: string)
    requires sep != [] && |Split(s, sep)| >= 2
    ensures var pieces := Split(s, sep);
            exists i :: OccursAt(s, sep, i) && s[i + |sep|..] == pieces[|pieces| - 1]
  {
    var pieces := Split(s, sep);
    JoinLast(pieces, sep);
    SeparatorBetween(s, sep, Join(pieces[..|pieces| - 1], sep), pieces[|pieces| - 1]);
  }

  /** The first piece of a split on "&" is the text up to the first '&'. */
  lemma FirstPieceUpToAmpersand(rest: string)
    ensures UpToAmpersand(Split(rest, "&")[0], rest)
  {
    var amp := Split(rest, "&");
    if |amp| > 1 {
      JoinFirst(amp, "&");
      assert rest[..|amp[0]| + 1] == amp[0] + "&";
    }
  }

  /** The token is what follows the last "token=" in the query string, up to the first '&' after it. */
  lemma ExtractTokenAfterLastMarker(queryString: string)
    requires Contains(queryString, TokenMarker)
    ensures exists i :: OccursAt(queryString, TokenMarker, i)
                        && !Contains(queryString[i + |TokenMarker|..], TokenMarker)
                        && UpToAmpersand(ExtractToken(queryString).value, queryString[i + |TokenMarker|..])
  {
    var pieces := Split(queryString, TokenMarker);
    var rest := pieces[|pieces| - 1];
    assert |pieces| >= 2;
    LastPieceFollowsSeparator(queryString, TokenMarker);
    FirstPieceUpToAmpersand(rest);
    assert !Contains(rest, TokenMarker);
  }

  /**
   * The user the socket authenticates as. `resolve` stands for decoding the JWT
   * and looking the account up; it answers None wherever that raises. An empty
   * token is falsy and is never resolved.
   */
  function AuthenticatedUser(queryString: string, resolve: string -> Option<nat>): (r: Option<nat>)
    ensures ExtractToken(queryString).None? ==> r.None?
    ensures ExtractToken(queryString) == Some("") ==> r.None?
    ensures ExtractToken(queryString).Some? && ExtractToken(queryString).value != "" ==>
              r == resolve(ExtractToken(queryString).value)
  {
    match ExtractToken(queryString)
    case Some(token) => if token != "" then resolve(token) else None
    case None => None
  }

  /** `f"user_{self.user.id}"` */
  function GroupName(user: nat): string {
    "user_" + Dec(user)
  }

  lemma GroupNamesDistinct(u: nat, v: nat)
    requires GroupName(u) == GroupName(v)
    ensures u == v
  {
    assert Dec(u) == GroupName(u)[5..] == GroupName(v)[5..] == Dec(v);
    DecInjective(u, v);
  }

  // ---------------------------------------------------------------------------
  // The "start" decision
  // ---------------------------------------------------------------------------

  /** A JSON message received on the socket, with the two keys the consumer reads. */
  datatype Content = Content(action: Option<string>, taskId: Option<string>)

  /** A JSON message sent back on the socket. */
  datatype Reply =
    | AlreadyRunning(runningTaskId: string, startedAt: string)
    | Started(taskId: string, startedAt: string)
  {
    function Status(): string {
      if AlreadyRunning? then "already_running" else "started"
    }

    function Message(): string {
      match this
      case AlreadyRunning(_, _) => "Another timer is already running."
      case Started(t, _) => "Timer started for task " + t + "."
    }
  }

  /** The error `set_active_timer` raises when the message carries no task id (the store refuses a None value). */
  const NoneValueError := "Invalid input of type: 'NoneType'"

  /** What the store holds for a running timer: a stored task id that is truthy, i.e. present and non-empty. */
  predicate Running(data: map<string, string>, user: nat) {
    var task := TimerOf(data, user).0;
    task.Some? && task.value != ""
  }

  /**
   * `receive_json(content)` for a connected `user` at time `now`: the new store
   * and the reply sent, if any, or the error raised.
   */
  function Receive(data: map<string, string>, user: nat, content: Content, now: DateTime)
    : (r: Result<(map<string, string>, Option<Reply>), string>)
    ensures r.Failure? <==> content.action == Some("start") && !Running(data, user) && content.taskId.None?
    ensures r.Success? && r.value.0 != data ==> content.action == Some("start") && !Running(data, user)
    ensures r.Success? && r.value.1.None? ==> content.action != Some("start")
  {
    if content.action != Some("start") then Success((data, None))
    else if Running(data, user) then
      var (task, start) := TimerOf(data, user);
      Success((data, Some(AlreadyRunning(task.value, start.GetOr("None")))))
    else
      match content.taskId
      case None => Failure(NoneValueError)
      case Some(t) =>
        Success((WithTimer(data, user, t, now), Some(Started(t, IsoFormat(now) + "Z"))))
  }

  /** Actions other than "start" change nothing and send nothing. */
  lemma OtherActionsInert(data: map<string, string>, user: nat, content: Content, now: DateTime)
    requires content.action != Some("start")
    ensures Receive(data, user, content, now) == Success((data, None))
  {
  }

  /** A running timer is reported, with its stored task and start, and the store is left alone. */
  lemma StartWhenRunning(data: map<string, string>, user: nat, content: Content, now: DateTime)
    requires content.action == Some("start") && Running(data, user)
    ensures var r := Receive(data, user, content, now);
            && r.Success? && r.value.0 == data
            && r.value.1 == Some(AlreadyRunning(TimerOf(data, user).0.value, TimerOf(data, user).1.GetOr("None")))
  {
  }

  /**
   * With no timer running, "start" stores the message's task and `now`, replies
   * with the same task, and its `started_at` is the stored start time plus "Z";
   * no other user's timer changes.
   */
  lemma StartWhenIdle(data: map<string, string>, user: nat, t: string, now: DateTime)
    requires !Running(data, user)
    ensures var r := Receive(data, user, Content(Some("start"), Some(t)), now);
            && r.Success? && r.value.1 == Some(Started(t, IsoFormat(now) + "Z"))
            && TimerOf(r.value.0, user) == (Some(t), Some(IsoFormat(now)))
            && r.value.1.value.startedAt == TimerOf(r.value.0, user).1.value + "Z"
            && forall v: nat :: v != user ==> TimerOf(r.value.0, v) == TimerOf(data, v)
  {
  }

  /** The reply's `started_at`, without its "Z", reads back as the very instant stored. */
  lemma StartedAtReadsBack(data: map<string, string>, user: nat, t: string, now: DateTime)
    requires !Running(data, user) && now.Valid()
    ensures var r := Receive(data, user, Content(Some("start"), Some(t)), now);
            && r.Success? && r.value.1.Some? && r.value.1.value.Started?
            && var s := r.value.1.value.startedAt;
               |s| > 0 && s[|s| - 1] == 'Z' && ParseIso(s[..|s| - 1]) == Some(now)
  {
    var s := IsoFormat(now) + "Z";
    assert s[..|s| - 1] == IsoFormat(now);
    IsoFormatRoundTrip(now);
  }

  /** "start" never replaces a running timer: whatever the message, a running user's entry is unchanged. */
  lemma StartNeverReplaces(data: map<string, string>, user: nat, content: Content, now: DateTime)
    requires Running(data, user)
    ensures var r := Receive(data, user, content, now);
            r.Success? && TimerOf(r.value.0, user) == TimerOf(data, user) && Running(r.value.0, user)
  {
  }

  /**
   * Two starts in a row: the second is answered `already_running` with the
   * first one's task and start, and leaves the store as the first left it.
   */
  lemma SecondStartRefused(data: map<string, string>, user: nat, t1: string, now1: DateTime, c2: Content, now2: DateTime)
    requires !Running(data, user) && t1 != "" && c2.action == Some("start")
    ensures var first := Receive(data, user, Content(Some("start"), Some(t1)), now1);
            && first.Success?
            && var second := Receive(first.value.0, user, c2, now2);
               && second == Success((first.value.0, Some(AlreadyRunning(t1, IsoFormat(now1)))))
  {
  }

  /**
   * A task id that is the empty string is stored, yet it is falsy, so it does
   * not count as running: the next "start" overwrites it although
   * `has_active_timer` reports a timer.
   */
  lemma EmptyTaskIdNotRunning(data: map<string, string>, user: nat, now: DateTime)
    requires !Running(data, user)
    ensures var r := Receive(data, user, Content(Some("start"), Some("")), now);
            r.Success? && !Running(r.value.0, user) && HasTimer(r.value.0, user)
  {
  }

  /** A "start" without a task id raises before anything is stored, unless a timer is running. */
  lemma StartWithoutTaskFails(data: map<string, string>, user: nat, now: DateTime)
    requires !Running(data, user)
    ensures Receive(data, user, Content(Some("start"), None), now) == Failure(NoneValueError)
  {
  }

  // ---------------------------------------------------------------------------
  // The consumer object
  // ---------------------------------------------------------------------------

  class TaskTimerConsumer {
    const store: KeyValueStore
    var user: Option<nat>
    var groupName: Option<string>
    var closeCode: Option<int>
    var accepted: bool
    var sent: seq<Reply>

    constructor (store: KeyValueStore)
      ensures this.store == store
      ensures user == None && groupName == None && closeCode == None && !accepted && sent == []
    {
      this.store := store;
      user := None;
      groupName := None;
      closeCode := None;
      accepted := false;
      sent := [];
    }

    /**
     * `connect()`: with no authenticated user the socket is closed with code
     * 4001 and nothing else happens; otherwise the user and its group are
     * recorded and the socket is accepted.
     */
    method Connect(queryString: string, resolve: string -> Option<nat>)
      modifies this
      ensures var u := AuthenticatedUser(queryString, resolve);
              && (u.None? ==> closeCode == Some(4001) && user == old(user) && groupName == old(groupName)
                              && accepted == old(accepted))
              && (u.Some? ==> user == u && groupName == Some(GroupName(u.value)) && accepted
                              && closeCode == old(closeCode))
      ensures sent == old(sent)
    {
      var token := ExtractToken(queryString);
      var found: Option<nat> := None;
      if token.Some? && token.value != "" {
        found := resolve(token.value);
      }
      if found.None? {
        closeCode := Some(4001);
        return;
      }
      user := found;
      groupName := Some(GroupName(found.value));
      accepted := true;
    }

    /** `receive_json(content)` at time `now`, as `Receive` describes it. */
    method ReceiveJson(content: Content, now: DateTime) returns (outcome: Outcome<string>)
      requires user.Some?
      modifies store, `sent
      ensures var r := Receive(old(store.data), user.value, content, now);
              && (outcome.Fail? <==> r.Failure?)
              && (r.Failure? ==> outcome.error == r.error && store.data == old(store.data) && sent == old(sent))
              && (r.Success? ==> store.data == r.value.0
                                 && sent == old(sent) + (if r.value.1.Some? then [r.value.1.value] else []))
    {
      outcome := Pass;
      if content.action != Some("start") {
        return;
      }
      var task, start := GetActiveTimer(store, user.value);
      if task.Some? && task.value != "" {
        sent := sent + [AlreadyRunning(task.value, start.GetOr("None"))];
        return;
      }
      if content.taskId.None? {
        outcome := Fail(NoneValueError);
        return;
      }
      var t := content.taskId.value;
      SetActiveTimer(store, user.value, t, now);
      sent := sent + [Started(t, IsoFormat(now) + "Z")];
    }
  }
}
