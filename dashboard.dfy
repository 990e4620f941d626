/**
 * The dashboard's summary cards: session counts from the session list, and message counts from the
 * usage report, falling back to the user's own counter when the report cannot be read.
 */
module Dashboard {
  import opened Common
  import opened SessionContext
  import opened Analytics

  datatype Stats = Stats(totalSessions: nat, activeSessions: nat, totalMessages: nat, messagesSentToday: nat)

  /**
   * The reply to `GET /api/analytics/usage?period=30d`. `messageStats` is `None` when the body lacks
   * `data.messageStats`, which makes a successful body throw when its statistics are read.
   */
  datatype UsageReply = UsageThrew(thrown: string) | UsageBody(success: bool, messageStats: Option<seq<MessageStat>>)

  /** `sessions.filter(s => s.status === 'authenticated').length`. */
  function ActiveSessions(sessions: seq<Session>): (n: nat)
    ensures n <= |sessions|
  {
    |Authenticated(sessions)|
  }

  /** The active count adds up over a split list, one for each authenticated session. */
  lemma ActiveSessionsAdditive(a: seq<Session>, b: seq<Session>)
    ensures ActiveSessions(a + b) == ActiveSessions(a) + ActiveSessions(b)
    ensures forall s :: ActiveSessions([s]) == if s.status == "authenticated" then 1 else 0
  {
    AuthenticatedAppend(a, b);
    forall s ensures ActiveSessions([s]) == if s.status == "authenticated" then 1 else 0 {
      assert [s][..0] == [];
    }
  }

  /** The summed count of the `sent` statistics dated `date`. */
  function SentOn(stats: seq<MessageStat>, date: string): nat {
    if stats == [] then 0
    else
      var last := stats[|stats| - 1];
      SentOn(stats[..|stats| - 1], date) + (if last.status == "sent" && last.date == date then last.count else 0)
  }

  /** Today's sent messages are part of all sent messages. */
  lemma {:induction false} SentOnBounded(stats: seq<MessageStat>, date: string)
    ensures SentOn(stats, date) <= StatusTotal(stats, "sent")
  {
    if stats != [] {
      SentOnBounded(stats[..|stats| - 1], date);
    }
  }

  /** The `forEach` over the message statistics: one accumulator for all sent messages, one for today's. */
  method CountSent(stats: seq<MessageStat>, today: string) returns (totalMessages: nat, messagesSentToday: nat)
    ensures totalMessages == StatusTotal(stats, "sent")
    ensures messagesSentToday == SentOn(stats, today)
    ensures messagesSentToday <= totalMessages
  {
    totalMessages, messagesSentToday := 0, 0;
    var n := 0;
    while n < |stats|
      invariant n <= |stats|
      invariant totalMessages == StatusTotal(stats[..n], "sent")
      invariant messagesSentToday == SentOn(stats[..n], today)
    {
      var stat := stats[n];
      assert stats[..n + 1][..n] == stats[..n];
      if stat.status == "sent" {
        totalMessages := totalMessages + stat.count;
        if stat.date == today {
          messagesSentToday := messagesSentToday + stat.count;
        }
      }
      n := n + 1;
    }
    assert stats[..n] == stats;
    SentOnBounded(stats, today);
  }

  /** The report is read and found wanting: it failed in transport, or it claims success without statistics. */
  predicate FetchThrows(reply: UsageReply) {
    reply.UsageThrew? || (reply.success && reply.messageStats.None?)
  }

  /**
   * `fetchStats`: session counts from the list; message counts from a successful report, zeros from an
   * unsuccessful one, and the user's `messagesUsed || 0` with no count for today when reading the report throws.
   */
  method FetchStats(sessions: seq<Session>, user: Option<User>, reply: UsageReply, today: string) returns (stats: Stats)
    ensures stats.totalSessions == |sessions| && stats.activeSessions == ActiveSessions(sessions)
    ensures stats.activeSessions <= stats.totalSessions
    ensures reply.UsageBody? && reply.success && reply.messageStats.Some? ==>
      && stats.totalMessages == StatusTotal(reply.messageStats.value, "sent")
      && stats.messagesSentToday == SentOn(reply.messageStats.value, today)
    ensures reply.UsageBody? && !reply.success ==> stats.totalMessages == 0 && stats.messagesSentToday == 0
    ensures FetchThrows(reply) ==>
      stats.totalMessages == (if user.Some? then user.value.messagesUsed else 0) && stats.messagesSentToday == 0
    ensures stats.messagesSentToday <= stats.totalMessages
  {
    var totalSessions := |sessions|;
    var activeSessions := ActiveSessions(sessions);
    if FetchThrows(reply) {
      var used := if user.Some? then user.value.messagesUsed else 0;
      return Stats(|sessions|, ActiveSessions(sessions), used, 0);
    }
    var totalMessages, messagesSentToday := 0, 0;
    if reply.success {
      totalMessages, messagesSentToday := CountSent(reply.messageStats.value, today);
    }
    stats := Stats(totalSessions, activeSessions, totalMessages, messagesSentToday);
  }
}
