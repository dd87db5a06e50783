/** The Slack status message: when a new one may be posted, across failures, crashes and restarts. */
module PostCap {
  import opened Prelude

  type Time = int

  const REPOST_EVERY: Time := 21600   // six hours, in seconds

  /** The stored row: where the message is, and when a new one was last attempted (None: never). */
  datatype Stored = Stored(message: Option<(string, string)>, attempt: Option<Time>)

  /** A store write may fail either way: with the value stored or not. */
  datatype Write = Saved | Failed(saved: bool)

  /** A new post: created, provably refused (ok:false or 4xx), or anything else, after which it may exist. */
  datatype Reply = Created(ts: string) | Refused | Ambiguous

  /** An edit: done, refused because the message or channel is gone, or any other error. */
  datatype Edit = Edited | MessageGone | ChannelGone | EditError

  /** Points of a run at which the process may die. */
  datatype Crash = Never | BeforeSend | AfterSend | AfterGiveBack

  /** Everything outside finbot that one update meets. */
  datatype Env = Env(readable: bool, channel: Option<string>, edit: Edit, rechannel: Option<string>,
                     store: Write, reply: Reply, giveBack: Write, saveMessage: Write, crash: Crash)

  /** A process and its database; posts lists the times of posts that may have created a message. */
  datatype State = State(loaded: bool, channel: Option<string>, stored: Stored, db: Stored, posts: seq<Time>)

  const NOTHING := Stored(None, None)

  function Restarted(s: State): State { State(false, None, NOTHING, s.db, s.posts) }

  predicate Capped(s: State, now: Time) {
    s.stored.attempt.Some? && 0 <= now - s.stored.attempt.value < REPOST_EVERY
  }

  function Wrote(db: Stored, next: Stored, w: Write): Stored {
    if w == Failed(false) then db else next
  }

  function Loaded(s: State, e: Env): State {
    if s.loaded || !e.readable then s else s.(loaded := true, stored := s.db)
  }

  /** post, with the process dying where e.crash says; channel is known. */
  function Posted(s: State, now: Time, e: Env): State {
    if Capped(s, now) then s
    else
      var db1 := Wrote(s.db, s.db.(attempt := Some(now)), e.store);
      if e.store.Failed? then s.(db := db1)
      else if e.crash == BeforeSend then Restarted(s.(db := db1))
      else
        var posts := if e.reply == Refused then s.posts else s.posts + [now];
        if e.crash == AfterSend then Restarted(s.(db := db1, posts := posts))
        else
          match e.reply
          case Ambiguous => s.(db := db1, stored := s.stored.(attempt := Some(now)), posts := posts)
          case Refused =>
            var u := s.(db := Wrote(db1, db1.(attempt := s.stored.attempt), e.giveBack));
            if e.crash == AfterGiveBack then Restarted(u) else u
          case Created(ts) =>
            var here := Some((s.channel.GetOr(""), ts));
            s.(db := Wrote(db1, db1.(message := here), e.saveMessage),
               stored := Stored(here, Some(now)), posts := posts)
  }

  /** Whether the stored message is in the current channel. */
  predicate Here(s: State) {
    s.stored.message.Some? && s.channel == Some(s.stored.message.value.0)
  }

  function Sent(s: State, now: Time, e: Env): State {
    var t := if s.channel.None? then s.(channel := e.channel) else s;
    if t.channel.None? then t
    else if !Here(t) then Posted(t, now, e)
    else
      match e.edit
      case Edited => t
      case EditError => t
      case MessageGone => Posted(t, now, e)
      case ChannelGone =>
        var u := t.(channel := e.rechannel);
        if u.channel.None? then u else Posted(u, now, e)
  }

  /** SyncDone or BackupDone, as far as the message is concerned. */
  function Updated(s: State, now: Time, e: Env): State {
    var t := Loaded(s, e);
    if t.loaded then Sent(t, now, e) else t
  }

  /** What one send can do to the posts. */
  ghost predicate PostsOnce(s: State, t: State, now: Time) {
    t.posts == s.posts || (t.posts == s.posts + [now] && t.db.attempt == Some(now) && !Capped(s, now))
  }

  lemma {:induction false} PostedPosts(s: State, now: Time, e: Env)
    ensures PostsOnce(s, Posted(s, now, e), now)
  {
  }

  lemma {:induction false} SentPosts(s: State, now: Time, e: Env)
    ensures PostsOnce(s, Sent(s, now, e), now)
  {
    var t := if s.channel.None? then s.(channel := e.channel) else s;
    PostedPosts(t, now, e);
    PostedPosts(t.(channel := e.rechannel), now, e);
  }

  // ---- When a message is edited, when one is posted, and what is remembered

  /** The row the process goes by: the one it loaded, or the one it can read now. */
  function RowOf(s: State): Stored { if s.loaded then s.stored else s.db }

  /** The channel the message belongs in, if it can be found. */
  function ChannelOf(s: State, e: Env): Option<string> { if s.channel.Some? then s.channel else e.channel }

  /** The row names a message in this channel. */
  predicate Remembers(row: Stored, channel: string) {
    match row.message
    case None => false
    case Some(m) => m.0 == channel
  }

  /** Where a new message is to go: none, if the state or the channel is not known, or if the remembered message was
      edited or may still be there. */
  function Target(s: State, e: Env): Option<string> {
    if (!s.loaded && !e.readable) || ChannelOf(s, e).None? then None
    else if !Remembers(RowOf(s), ChannelOf(s, e).value) then ChannelOf(s, e)
    else
      match e.edit
      case Edited => None
      case EditError => None
      case MessageGone => ChannelOf(s, e)
      case ChannelGone => e.rechannel
  }

  /** The attempt on record is less than six hours old. */
  predicate TooSoon(attempt: Option<Time>, now: Time) {
    attempt.Some? && attempt.value <= now && now < attempt.value + 6 * 60 * 60
  }

  /** The attempt is stored, and nothing after it is: the write reported a failure, or the process dies too early. */
  predicate StoresOnly(e: Env) {
    e.store == Failed(true) || (e.store == Saved && (e.crash == BeforeSend || e.crash == AfterSend))
  }

  predicate Attempts(s: State, now: Time, e: Env) { Target(s, e).Some? && !TooSoon(RowOf(s).attempt, now) }

  lemma {:induction false} UpdateGoesTo(s: State, now: Time, e: Env)
    ensures var t := Updated(s, now, e);
            match Target(s, e)
            case None => t.db == s.db && t.posts == s.posts
            case Some(c) => t == Posted(s.(loaded := true, stored := RowOf(s), channel := Some(c)), now, e)
  {
  }

  lemma {:induction false} PostedIff(s: State, now: Time, e: Env)
    requires s.loaded
    ensures var t, tries := Posted(s, now, e), !TooSoon(s.stored.attempt, now);
            && (!tries || e.store == Failed(false) ==> t.db == s.db)
            && (tries && StoresOnly(e) ==> t.db == s.db.(attempt := Some(now)))
            && t.posts == if tries && e.store == Saved && e.crash != BeforeSend && e.reply != Refused
                          then s.posts + [now] else s.posts
  {
  }

  /** Without an attempt nothing is stored or posted. An attempt is stored first, which a crash does not undo, and only
      if that succeeds a message is posted; it may exist unless it was refused. */
  lemma {:induction false} UpdatePostsIff(s: State, now: Time, e: Env)
    ensures var t := Updated(s, now, e);
            && (!Attempts(s, now, e) ==> t.db == s.db)
            && (Attempts(s, now, e) && e.store == Failed(false) ==> t.db == s.db)
            && (Attempts(s, now, e) && StoresOnly(e) ==> t.db == s.db.(attempt := Some(now)))
            && t.posts ==
               if Attempts(s, now, e) && e.store == Saved && e.crash != BeforeSend && e.reply != Refused
               then s.posts + [now] else s.posts
  {
    UpdateGoesTo(s, now, e);
    if Target(s, e).Some? {
      PostedIff(s.(loaded := true, stored := RowOf(s), channel := Some(Target(s, e).value)), now, e);
    }
  }

  /** After a stored attempt by a process that lives on: a refusal gives the attempt back in memory and, if that write
      works, in the database; an unclear answer keeps it in both; a created message is remembered with its channel. */
  lemma {:induction false} PostIsRemembered(s: State, now: Time, e: Env)
    requires Attempts(s, now, e) && e.store == Saved && e.crash == Never
    ensures var t, channel := Updated(s, now, e), Target(s, e).value;
            && t.loaded && t.channel == Some(channel)
            && match e.reply
               case Refused =>
                 && t.stored == RowOf(s) && t.db.message == s.db.message
                 && t.db.attempt == if e.giveBack == Failed(false) then Some(now) else RowOf(s).attempt
               case Ambiguous =>
                 t.stored == RowOf(s).(attempt := Some(now)) && t.db == s.db.(attempt := Some(now))
               case Created(ts) =>
                 && t.stored == Stored(Some((channel, ts)), Some(now)) && t.db.attempt == Some(now)
                 && t.db.message == if e.saveMessage == Failed(false) then s.db.message else Some((channel, ts))
  {
    UpdateGoesTo(s, now, e);
  }

  class Updater {
    var loaded: bool
    var channel: Option<string>
    var stored: Stored
    var db: Stored          // the database, which outlives the process
    var posts: seq<Time>    // posts that may have created a message

    function View(): State
      reads this
    {
      State(loaded, channel, stored, db, posts)
    }

    constructor (db: Stored)
      ensures View() == State(false, None, NOTHING, db, [])
    {
      loaded, channel, stored, posts := false, None, NOTHING, [];
      this.db := db;
    }

    method Die()
      modifies this
      ensures View() == Restarted(old(View()))
    {
      loaded, channel, stored := false, None, NOTHING;
    }

    /** Takes over the stored row once per process, as soon as it can be read, and writes nothing. */
    method Load(e: Env)
      modifies this
      ensures loaded <==> old(loaded) || e.readable
      ensures stored == if loaded && !old(loaded) then db else old(stored)
      ensures db == old(db) && posts == old(posts) && channel == old(channel)
      ensures View() == Loaded(old(View()), e)
    {
      if loaded || !e.readable { return; }
      stored := db;
      loaded := true;
    }

    method SetPostAttempt(at: Option<Time>, w: Write) returns (ok: bool)
      modifies this`db
      ensures ok <==> w.Saved?
      ensures db == Wrote(old(db), old(db).(attempt := at), w)
    {
      if w != Failed(false) { db := db.(attempt := at); }
      return w.Saved?;
    }

    /** Posts a new message, at most once per window. The attempt is stored first and only a provable refusal
        gives it back. */
    method Post(now: Time, e: Env)
      modifies this
      ensures View() == Posted(old(View()), now, e)
    {
      var last := stored.attempt;
      if last.Some? {
        var since := now - last.value;
        if 0 <= since < REPOST_EVERY { return; }
      }
      var ok := SetPostAttempt(Some(now), e.store);
      if !ok { return; }
      if e.crash == BeforeSend { Die(); return; }
      stored := stored.(attempt := Some(now));
      if e.reply != Refused { posts := posts + [now]; }
      if e.crash == AfterSend { Die(); return; }
      match e.reply {
        case Ambiguous =>
        case Refused =>
          stored := stored.(attempt := last);
          var _ := SetPostAttempt(last, e.giveBack);
          if e.crash == AfterGiveBack { Die(); }
        case Created(ts) =>
          stored := stored.(message := Some((channel.GetOr(""), ts)));
          if e.saveMessage != Failed(false) { db := db.(message := stored.message); }
      }
    }

    /** Edits the stored message if it is in the current channel, and posts a new one if it is gone. */
    method Send(now: Time, e: Env)
      modifies this
      ensures View() == Sent(old(View()), now, e)
    {
      if channel.None? {
        if e.channel.None? { return; }
        channel := e.channel;
      }
      if stored.message.Some? && stored.message.value.0 == channel.value {
        if e.edit == Edited || e.edit == EditError { return; }
        if e.edit == ChannelGone {
          channel := None;
          if e.rechannel.None? { return; }
          channel := e.rechannel;
        }
      }
      Post(now, e);
    }

    /** A process that could not read its row sends and writes nothing. A message can only be created outside the
        window of the attempt on record, and then its own attempt is in the database. */
    method Update(now: Time, e: Env)
      modifies this
      ensures !old(loaded) && !e.readable ==> View() == old(View())
      ensures posts == old(posts)
              || (posts == old(posts) + [now] && db.attempt == Some(now) && !Capped(Loaded(old(View()), e), now))
      ensures View() == Updated(old(View()), now, e)
    {
      SentPosts(Loaded(View(), e), now, e);
      Load(e);
      if !loaded { return; }
      Send(now, e);
    }
  }

  // ---- Runs

  datatype Event = Update(now: Time, env: Env) | Restart

  function Step(s: State, e: Event): State {
    match e
    case Update(now, env) => Updated(s, now, env)
    case Restart => Restarted(s)
  }

  function Run(db: Stored, es: seq<Event>): State {
    if es == [] then State(false, None, NOTHING, db, []) else Step(Run(db, es[..|es| - 1]), es[|es| - 1])
  }

  /** Any two posts that may have created a message are a full window apart. */
  ghost predicate Spaced(posts: seq<Time>) {
    forall i, j :: 0 <= i < j < |posts| ==> posts[j] - posts[i] >= REPOST_EVERY
  }

  /** An attempt on record at or after every post so far. */
  ghost predicate Covers(attempt: Option<Time>, posts: seq<Time>) {
    posts != [] ==> attempt.Some? && forall i :: 0 <= i < |posts| ==> posts[i] <= attempt.value
  }

  predicate Past(attempt: Option<Time>, clock: Time) { attempt.Some? ==> attempt.value <= clock }

  /** Both the database and a process that has loaded it remember the latest post, and nothing is in the future. */
  ghost predicate Safe(s: State, clock: Time) {
    && Spaced(s.posts)
    && Covers(s.db.attempt, s.posts) && Past(s.db.attempt, clock)
    && (s.loaded ==> Covers(s.stored.attempt, s.posts) && Past(s.stored.attempt, clock))
  }

  lemma {:induction false} PostKeepsSafe(s: State, now: Time, e: Env)
    requires Safe(s, now) && s.loaded
    ensures Safe(Posted(s, now, e), now)
  {
    if !Capped(s, now) {
      OneMorePost(s.posts, s.stored.attempt, now);
      PostedRecords(s, now, e);
      RecordKeepsSafe(s, Posted(s, now, e), now);
    }
  }

  /** What remembers a possible post: a new one is on record wherever the process or the database looks, and
      without one the records are the old ones or this attempt. */
  ghost predicate Records(s: State, u: State, now: Time) {
    if |u.posts| > |s.posts| then
      u.posts == s.posts + [now] && u.db.attempt == Some(now) && (u.loaded ==> u.stored.attempt == Some(now))
    else
      && u.posts == s.posts
      && (u.db.attempt == Some(now) || u.db.attempt == s.db.attempt || u.db.attempt == s.stored.attempt)
      && (u.loaded ==> u.stored.attempt == Some(now) || u.stored.attempt == s.stored.attempt)
  }

  lemma {:induction false} PostedRecords(s: State, now: Time, e: Env)
    requires s.loaded && !Capped(s, now)
    ensures Records(s, Posted(s, now, e), now)
  {
  }

  lemma {:induction false} RecordKeepsSafe(s: State, u: State, now: Time)
    requires Safe(s, now) && s.loaded && Records(s, u, now)
    requires Spaced(s.posts + [now]) && Covers(Some(now), s.posts) && Covers(Some(now), s.posts + [now])
    ensures Safe(u, now)
  {
  }

  /** A post that the cap lets through is far enough from all earlier ones, and its attempt covers them. */
  lemma {:induction false} OneMorePost(posts: seq<Time>, attempt: Option<Time>, now: Time)
    requires Spaced(posts) && Covers(attempt, posts) && Past(attempt, now)
    requires attempt.Some? ==> now - attempt.value >= REPOST_EVERY
    ensures Spaced(posts + [now]) && Covers(Some(now), posts) && Covers(Some(now), posts + [now])
  {
  }

  lemma {:induction false} SendKeepsSafe(s: State, now: Time, e: Env)
    requires Safe(s, now) && s.loaded
    ensures Safe(Sent(s, now, e), now)
  {
    var t := if s.channel.None? then s.(channel := e.channel) else s;
    PostKeepsSafe(t, now, e);
    PostKeepsSafe(t.(channel := e.rechannel), now, e);
  }

  lemma {:induction false} StepKeepsSafe(s: State, e: Event, clock: Time)
    requires Safe(s, clock) && (e.Update? ==> clock <= e.now)
    ensures Safe(Step(s, e), if e.Update? then e.now else clock)
  {
    if e.Update? {
      var t := Loaded(s, e.env);
      assert Safe(t, e.now);
      if t.loaded { SendKeepsSafe(t, e.now, e.env); }
    }
  }

  function Clock(es: seq<Event>, start: Time): Time {
    if es == [] then start
    else if es[|es| - 1].Update? then es[|es| - 1].now
    else Clock(es[..|es| - 1], start)
  }

  ghost predicate ClockRuns(es: seq<Event>, start: Time) {
    es == [] || (ClockRuns(es[..|es| - 1], start)
                 && (es[|es| - 1].Update? ==> Clock(es[..|es| - 1], start) <= es[|es| - 1].now))
  }

  /** Over every run of updates, restarts, crashes, ambiguous answers and failed writes, posts stay a window apart. */
  lemma {:induction false} PostsAreSpaced(db: Stored, es: seq<Event>, start: Time)
    requires Past(db.attempt, start) && ClockRuns(es, start)
    ensures Safe(Run(db, es), Clock(es, start))
  {
    if es != [] {
      PostsAreSpaced(db, es[..|es| - 1], start);
      StepKeepsSafe(Run(db, es[..|es| - 1]), es[|es| - 1], Clock(es[..|es| - 1], start));
    }
  }

  /** For a saved attempt whose message may be created: with the latest post on record, the posts stay a window apart
      exactly if the clock is not behind that record. */
  lemma {:induction false} SpacedIffClockNotBack(s: State, now: Time, e: Env)
    requires Spaced(s.posts) && s.posts != [] && s.stored.attempt == Some(s.posts[|s.posts| - 1])
    requires e.store.Saved? && e.crash != BeforeSend && e.reply != Refused
    ensures Spaced(Posted(s, now, e).posts) <==> now >= s.stored.attempt.value
  {
    var last := s.posts[|s.posts| - 1];
    if !Capped(s, now) {
      var posts := s.posts + [now];
      assert Posted(s, now, e).posts == posts;
      assert posts[|s.posts|] == now && posts[|s.posts| - 1] == last;
      if now >= last {
        forall i, j | 0 <= i < j < |posts| ensures posts[j] - posts[i] >= REPOST_EVERY {
          assert i < |s.posts| - 1 ==> last - s.posts[i] >= REPOST_EVERY;
        }
      }
    }
  }

  /** A clock that steps back lifts the cap: two posts at one moment. */
  lemma {:induction false} ClockStepBackLiftsCap()
    ensures var e := Env(true, Some("c"), MessageGone, None, Saved, Ambiguous, Saved, Saved, Never);
            Run(NOTHING, [Event.Update(10, e), Event.Update(9, e)]).posts == [10, 9]
  {
    var e := Env(true, Some("c"), MessageGone, None, Saved, Ambiguous, Saved, Saved, Never);
    var a, b := Event.Update(10, e), Event.Update(9, e);
    assert [a, b][..1] == [a] && [a][..0] == [];
    var s0 := State(false, None, NOTHING, NOTHING, []);
    assert Run(NOTHING, []) == s0;
    var s1 := Updated(s0, 10, e);
    assert Run(NOTHING, [a]) == s1;
    assert s1 == State(true, Some("c"), Stored(None, Some(10)), Stored(None, Some(10)), [10]);
    assert Updated(s1, 9, e).posts == [10, 9];
  }

  /** A provably refused post leaves the running process free to try again at any later moment. */
  lemma {:induction false} RefusalKeepsWindow(s: State, now: Time, e: Env, later: Time)
    requires Past(s.stored.attempt, now) && now <= later && !Capped(s, now)
    requires e.reply == Refused && e.crash == Never
    ensures var t := Posted(s, now, e);
            t.stored == s.stored && t.posts == s.posts && !Capped(t, later)
  {
  }

  /** A stored attempt is what caps: an accepted or ambiguous post blocks every post of the same window, even after
      any number of restarts. */
  lemma {:induction false} AttemptBlocksWindow(s: State, now: Time, e: Env, later: Time, e': Env)
    requires s.loaded && !Capped(s, now) && e.store.Saved? && e.crash != BeforeSend && e.reply != Refused
    requires now <= later < now + REPOST_EVERY
    ensures Posted(s, now, e).posts == s.posts + [now]
    ensures Updated(Posted(s, now, e), later, e').posts == s.posts + [now]
    ensures Updated(Restarted(Posted(s, now, e)), later, e').posts == s.posts + [now]
  {
  }
}
