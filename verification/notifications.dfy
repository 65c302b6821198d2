/** Notifications: the read flag, the delivery state with its retry
    counter, and the service that creates, sends and resends them
    (notifications/models.py, notifications/services.py). The SMS
    provider's HTTP exchange is an input: `Outcome`. */
module Notifications {
  import opened Wrappers
  import opened Tables
  import Text

  datatype Channel = Sms | Email | Push | System

  datatype Status = Pending | Processing | Sent | Failed | Cancelled

  /** A provider's JSON reply with its values rendered as text. */
  type Response = map<string, string>

  const DefaultMaxRetries: nat := 3

  /** Seconds `retry_failed` waits after the last attempt. */
  const RetryDelaySeconds: nat := 30

  datatype Notification = Notification(
    userId: nat,
    phone: string,
    channel: Channel,
    kind: string,                      // `notification_type`
    message: string,
    isRead: bool,
    readAt: Option<nat>,
    status: Status,
    sentAt: Option<nat>,
    lastAttemptAt: Option<nat>,
    retryCount: nat,
    maxRetries: nat,
    providerResponse: Option<Response>,
    errorMessage: Option<string>,
    metadata: map<string, string>,
    createdAt: nat)

  /** A row as `objects.create` stores it when only the required fields are
      given: unread, PENDING, no attempts yet and three retries allowed. */
  function NewNotification(userId: nat, phone: string, channel: Channel, kind: string, message: string,
                           metadata: map<string, string>, now: nat): (n: Notification)
    ensures n.status == Pending && !n.isRead && n.readAt.None?
    ensures n.retryCount == 0 && n.maxRetries == DefaultMaxRetries
    ensures n.sentAt.None? && n.lastAttemptAt.None?
    ensures n.userId == userId && n.phone == phone && n.channel == channel && n.message == message
  {
    Notification(userId, phone, channel, kind, message, false, None, Pending, None, None, 0,
                 DefaultMaxRetries, None, None, metadata, now)
  }

  /** `mark_as_read`: only the first call stamps `read_at`. */
  function MarkAsRead(n: Notification, now: nat): (r: Notification)
    ensures r.isRead
    ensures n.isRead ==> r == n
    ensures !n.isRead ==> r == n.(isRead := true, readAt := Some(now))
  {
    if !n.isRead then n.(isRead := true, readAt := Some(now)) else n
  }

  /** Reading twice is reading once: the second call keeps the first
      timestamp. */
  lemma MarkAsReadIdempotent(n: Notification, now: nat, later: nat)
    ensures MarkAsRead(MarkAsRead(n, now), later) == MarkAsRead(n, now)
    ensures !n.isRead ==> MarkAsRead(MarkAsRead(n, now), later).readAt == Some(now)
  {
  }

  /** `mark_as_unread`. */
  function MarkAsUnread(n: Notification): (r: Notification)
    ensures !r.isRead && r.readAt.None?
    ensures r.(isRead := n.isRead, readAt := n.readAt) == n
  {
    n.(isRead := false, readAt := None)
  }

  /** Unreading undoes a first reading. */
  lemma UnreadUndoesRead(n: Notification, now: nat)
    requires !n.isRead && n.readAt.None?
    ensures MarkAsUnread(MarkAsRead(n, now)) == n
  {
  }

  /** `mark_processing`: no guard on the current status. */
  function MarkProcessing(n: Notification, now: nat): (r: Notification)
    ensures r.status == Processing && r.lastAttemptAt == Some(now)
    ensures r.(status := n.status, lastAttemptAt := n.lastAttemptAt) == n
  {
    n.(status := Processing, lastAttemptAt := Some(now))
  }

  /** `mark_sent`: no guard on the current status. */
  function MarkSent(n: Notification, response: Option<Response>, now: nat): (r: Notification)
    ensures r.status == Sent && r.sentAt == Some(now) && r.providerResponse == response
    ensures r.(status := n.status, sentAt := n.sentAt, providerResponse := n.providerResponse) == n
  {
    n.(status := Sent, sentAt := Some(now), providerResponse := response)
  }

  /** `mark_failed`: one more attempt counted. */
  function MarkFailed(n: Notification, error: Option<string>, response: Option<Response>, now: nat): (r: Notification)
    ensures r.status == Failed && r.retryCount == n.retryCount + 1
    ensures r.errorMessage == error && r.providerResponse == response && r.lastAttemptAt == Some(now)
    ensures r.(status := n.status, retryCount := n.retryCount, errorMessage := n.errorMessage,
               providerResponse := n.providerResponse, lastAttemptAt := n.lastAttemptAt) == n
  {
    n.(retryCount := n.retryCount + 1, lastAttemptAt := Some(now), status := Failed,
       errorMessage := error, providerResponse := response)
  }

  /** `can_retry`. */
  predicate CanRetry(n: Notification) {
    n.retryCount < n.maxRetries && n.status == Failed
  }

  /** Failing `maxRetries` times exhausts the retries of a fresh row. */
  lemma {:induction false} FailuresExhaustRetries(n: Notification, errors: seq<string>, now: nat)
    requires n.retryCount == 0 && |errors| == n.maxRetries
    ensures !CanRetry(FailAll(n, errors, now))
    ensures FailAll(n, errors, now).retryCount == n.maxRetries
  {
    FailAllCounts(n, errors, now);
  }

  /** One `mark_failed` per message. */
  function FailAll(n: Notification, errors: seq<string>, now: nat): Notification
    decreases |errors|
  {
    if errors == [] then n else FailAll(MarkFailed(n, Some(errors[0]), None, now), errors[1..], now)
  }

  lemma {:induction false} FailAllCounts(n: Notification, errors: seq<string>, now: nat)
    ensures FailAll(n, errors, now).retryCount == n.retryCount + |errors|
    ensures errors != [] ==> FailAll(n, errors, now).status == Failed
    ensures FailAll(n, errors, now).maxRetries == n.maxRetries
    decreases |errors|
  {
    if errors != [] {
      FailAllCounts(MarkFailed(n, Some(errors[0]), None, now), errors[1..], now);
    }
  }

  type Notifications = Table<Notification>

  predicate UnreadOf(userId: nat, n: Notification) {
    n.userId == userId && !n.isRead
  }

  /** The keys of `userId`'s unread rows. */
  function UnreadKeys(t: Notifications, userId: nat): set<nat> {
    set k | k in t.rows && UnreadOf(userId, t.rows[k])
  }

  /** `unread_count`. */
  function UnreadCount(t: Notifications, userId: nat): (c: nat)
    ensures c == |UnreadKeys(t, userId)|
  {
    var p := (n: Notification) => UnreadOf(userId, n);
    assert Matching(t, p) == UnreadKeys(t, userId) by {
      forall k ensures k in Matching(t, p) <==> k in UnreadKeys(t, userId) {
      }
    }
    Count(t, p)
  }

  /** `unread_count` is 0 exactly when the user has no unread row. */
  lemma UnreadCountZero(t: Notifications, userId: nat)
    ensures UnreadCount(t, userId) == 0 <==> forall k :: k in t.rows ==> !UnreadOf(userId, t.rows[k])
  {
    var s := UnreadKeys(t, userId);
    if s != {} {
      var k :| k in s;
    }
    assert forall k :: k in t.rows && UnreadOf(userId, t.rows[k]) ==> k in s;
  }

  /** `mark_all_as_read`: marks the user's unread rows read at `now` and
      returns how many there were. */
  function MarkAllAsRead(t: Notifications, userId: nat, now: nat): (r: (Notifications, nat))
    ensures r.1 == UnreadCount(t, userId)
    ensures r.0.rows.Keys == t.rows.Keys
    ensures forall k :: k in t.rows && UnreadOf(userId, t.rows[k]) ==>
              r.0.rows[k] == t.rows[k].(isRead := true, readAt := Some(now))
    ensures forall k :: k in t.rows && !UnreadOf(userId, t.rows[k]) ==> r.0.rows[k] == t.rows[k]
  {
    (UpdateWhere(t, n => UnreadOf(userId, n), (n: Notification) => n.(isRead := true, readAt := Some(now))),
     UnreadCount(t, userId))
  }

  /** After `mark_all_as_read(u)`, `unread_count(u)` is 0 and other users'
      unread rows are exactly as before. */
  lemma MarkAllAsReadClears(t: Notifications, userId: nat, now: nat, other: nat)
    requires other != userId
    ensures UnreadCount(MarkAllAsRead(t, userId, now).0, userId) == 0
    ensures UnreadKeys(MarkAllAsRead(t, userId, now).0, other) == UnreadKeys(t, other)
  {
    var t' := MarkAllAsRead(t, userId, now).0;
    forall k | k in t'.rows
      ensures !UnreadOf(userId, t'.rows[k])
      ensures UnreadOf(other, t'.rows[k]) == UnreadOf(other, t.rows[k])
    {
    }
    assert UnreadKeys(t', userId) == {};
  }

  /** `DevSMSProvider._clean`: its 998 branch returns the same digits as
      the fallback. */
  function CleanDestination(phone: string): (r: string)
    ensures r == Text.Digits(phone)
  {
    var digits := Text.Digits(phone);
    if |digits| == 12 && Text.StartsWith(digits, "998") then digits else digits
  }

  /** What the provider call did: returned a reply or raised. */
  datatype Outcome = Delivered(response: Response) | Raised(error: string)

  /** `NotificationService.send`: never raises. */
  function Send(n: Notification, outcome: Outcome, now: nat): (r: Notification)
    ensures n.channel != Sms || n.status == Sent ==> r == n
    ensures n.channel == Sms && n.status != Sent ==>
              match outcome
              case Delivered(response) =>
                r.status == Sent && r.sentAt == Some(now) && r.providerResponse == Some(response)
                && r.lastAttemptAt == Some(now) && r.retryCount == n.retryCount
              case Raised(error) =>
                r.status == Failed && r.retryCount == n.retryCount + 1 && r.errorMessage == Some(error)
                && r.providerResponse.None? && r.lastAttemptAt == Some(now)
    ensures r.userId == n.userId && r.message == n.message && r.isRead == n.isRead && r.maxRetries == n.maxRetries
  {
    if n.channel != Sms then n
    else if n.status == Sent then n
    else
      var p := MarkProcessing(n, now);
      match outcome
      case Delivered(response) => MarkSent(p, Some(response), now)
      case Raised(error) => MarkFailed(p, Some(error), None, now)
  }

  /** Sending is idempotent once it has succeeded. */
  lemma SendAfterSentIsNoop(n: Notification, o1: Outcome, o2: Outcome, now: nat, later: nat)
    requires o1.Delivered?
    ensures Send(Send(n, o1, now), o2, later) == Send(n, o1, now)
  {
  }

  /** `create_system_notification`: an in-app row, already SENT. */
  function CreateSystem(t: Notifications, userId: nat, phone: string, kind: string,
                        metadata: map<string, string>, message: string, now: nat): (r: (Notifications, nat))
    ensures r.1 !in t.rows && r.1 in r.0.rows && r.0.rows == t.rows[r.1 := r.0.rows[r.1]]
    ensures var n := r.0.rows[r.1];
            n.channel == System && n.status == Sent && n.sentAt == Some(now) && !n.isRead
            && n.userId == userId && n.phone == phone && n.message == message
  {
    Insert(t, NewNotification(userId, phone, System, kind, message, metadata, now).(status := Sent, sentAt := Some(now)))
  }

  /** `create_sms_notification`: an SMS row, PENDING. */
  function CreateSms(t: Notifications, userId: nat, phone: string, kind: string,
                     metadata: map<string, string>, message: string, now: nat): (r: (Notifications, nat))
    ensures r.1 !in t.rows && r.1 in r.0.rows && r.0.rows == t.rows[r.1 := r.0.rows[r.1]]
    ensures var n := r.0.rows[r.1];
            n.channel == Sms && n.status == Pending && !n.isRead && n.retryCount == 0
            && n.userId == userId && n.phone == phone && n.message == message
  {
    Insert(t, NewNotification(userId, phone, Sms, kind, message, metadata, now))
  }

  /** `notify`: always one SYSTEM row, plus one PENDING SMS row when
      `sendSms`, whose key is returned for the after-commit `Send`. The
      messages are the rendered templates. */
  function Notify(t: Notifications, userId: nat, phone: string, kind: string, metadata: map<string, string>,
                  systemMessage: string, smsMessage: string, sendSms: bool, now: nat)
    : (r: (Notifications, nat, Option<nat>))
    ensures var (t', sys, sms) := r;
            sys !in t.rows && sys in t'.rows && t'.rows[sys].channel == System && t'.rows[sys].status == Sent
            && (sendSms <==> sms.Some?)
            && (sms.Some? ==> sms.value !in t.rows && sms.value != sys && sms.value in t'.rows
                              && t'.rows[sms.value].channel == Sms && t'.rows[sms.value].status == Pending)
            && t'.rows.Keys == t.rows.Keys + {sys} + (if sms.Some? then {sms.value} else {})
            && forall k :: k in t.rows ==> t'.rows[k] == t.rows[k]
  {
    var (t1, sys) := CreateSystem(t, userId, phone, kind, metadata, systemMessage, now);
    if sendSms then
      var (t2, sms) := CreateSms(t1, userId, phone, kind, metadata, smsMessage, now);
      (t2, sys, Some(sms))
    else (t1, sys, None)
  }

  /** What `notify` leaves for its after-commit `send`: the SMS row is the
      only new PENDING row; sending the SYSTEM row changes nothing; a
      delivered SMS becomes SENT, and a raised one FAILED after one of its
      three attempts, so it can still be retried. */
  lemma NotifyThenSend(t: Notifications, userId: nat, phone: string, kind: string, metadata: map<string, string>,
                       systemMessage: string, smsMessage: string, now: nat, outcome: Outcome, later: nat)
    ensures var (t', sys, sms) := Notify(t, userId, phone, kind, metadata, systemMessage, smsMessage, true, now);
            && sms.Some?
            && (forall k :: k in t'.rows && k !in t.rows && t'.rows[k].status == Pending ==> k == sms.value)
            && Send(t'.rows[sys], outcome, later) == t'.rows[sys]
            && (outcome.Delivered? ==> Send(t'.rows[sms.value], outcome, later).status == Sent)
            && (outcome.Raised? ==> var n := Send(t'.rows[sms.value], outcome, later);
                                    n.status == Failed && n.retryCount == 1 && CanRetry(n))
  {
  }

  /** `retry_failed` right after `notify` leaves both new rows alone:
      neither is FAILED. */
  lemma NotifyNotRetried(t: Notifications, userId: nat, phone: string, kind: string, metadata: map<string, string>,
                         systemMessage: string, smsMessage: string, sendSms: bool, now: nat,
                         outcome: nat -> Outcome, later: nat)
    ensures var (t', sys, sms) := Notify(t, userId, phone, kind, metadata, systemMessage, smsMessage, sendSms, now);
            var r := RetryFailed(t', outcome, later);
            && r.rows[sys] == t'.rows[sys]
            && (sms.Some? ==> r.rows[sms.value] == t'.rows[sms.value])
  {
  }

  /** The rows `retry_failed` resends. */
  predicate RetryDue(n: Notification, now: nat) {
    && n.status == Failed && n.channel == Sms
    && CanRetry(n)
    && (n.lastAttemptAt.Some? ==> now >= n.lastAttemptAt.value + RetryDelaySeconds)
  }

  /** `retry_failed`; `outcome(k)` is what the provider does for row `k`. */
  function RetryFailed(t: Notifications, outcome: nat -> Outcome, now: nat): (r: Notifications)
    ensures r.rows.Keys == t.rows.Keys
    ensures forall k :: k in t.rows && !RetryDue(t.rows[k], now) ==> r.rows[k] == t.rows[k]
    ensures forall k :: k in t.rows && RetryDue(t.rows[k], now) ==>
              r.rows[k].lastAttemptAt == Some(now)
              && (r.rows[k].status == Sent || r.rows[k].retryCount == t.rows[k].retryCount + 1)
  {
    RawTable(map k | k in t.rows :: if RetryDue(t.rows[k], now) then Send(t.rows[k], outcome(k), now) else t.rows[k],
             t.next)
  }

  /** A row whose retries are used up is never resent, so the attempt
      count of a row never passes `maxRetries` through `retry_failed`. */
  lemma RetryRespectsLimit(t: Notifications, outcome: nat -> Outcome, now: nat, k: nat)
    requires k in t.rows && t.rows[k].retryCount <= t.rows[k].maxRetries
    ensures RetryFailed(t, outcome, now).rows[k].retryCount <= t.rows[k].maxRetries
  {
  }
}
