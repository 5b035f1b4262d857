/** Fetching cover art into a file: get_impl, get_thumbnail, get_image, wait_for_transfer and the two
    scope guards of native/src/cover_art_service.cpp.

    obexd answers as it likes: its answers are arbitrary values here. It writes the target file only
    on behalf of a transfer that it has started and that is neither over nor cancelled. Exceptions
    are values, and a scope guard's destructor is a statement on every way out. */
module CoverArtDownloads {
  import opened Wrappers
  import opened CoverArtSharing

  /** What a path names; `Dangling` is a symbolic link to nothing. */
  datatype File = Missing | Dangling | Regular(size: nat) | Irregular

  /** std::filesystem::exists follows links. */
  predicate Exists(file: File) {
    file.Regular? || file.Irregular?
  }

  /** transfer_file_complete, where an expected size of 0 means that it is not known. */
  predicate Complete(file: File, expected: nat) {
    file.Regular? && if expected > 0 then file.size == expected else file.size > 0
  }

  /** sdbus::Error, and the std::runtime_error that remaining_timeout throws. */
  datatype Error = DBusError(unknownObject: bool) | TimedOut
  datatype Reply<T> = Value(value: T) | Throws(error: Error)

  datatype Status = SaysComplete | SaysError | SaysOther

  /** What ended the waiting for a transfer: the answer to a status request, or nothing in time. */
  type News = Option<Reply<Status>>

  /** The transfer itself is over: no Cancel is due. */
  predicate Over(news: News) {
    news == Some(Value(SaysComplete)) || news == Some(Value(SaysError))
  }

  /** obexd no longer knows the transfer. */
  predicate Gone(news: News) {
    news == Some(Throws(DBusError(true)))
  }

  /** What the wait yields: the file, as it is then, decides if the transfer completed or is gone. */
  function Verdict(news: News, file: File, expected: nat): Reply<bool> {
    if news == Some(Throws(TimedOut)) then Throws(TimedOut)
    else Value((news == Some(Value(SaysComplete)) || Gone(news)) && Complete(file, expected))
  }

  /** A transfer that was waited for, and the file when the waiting stopped. */
  datatype Wait = Wait(expected: nat, news: News, found: File, verdict: Reply<bool>)

  datatype Source = Source(device: string, handle: string, port: nat, player: string)

  /** What a lookup said. */
  datatype Answer = Sourced(source: Source) | Said(text: string)

  /** The lookup found nothing to go on with. */
  predicate Nothing(a: Answer) {
    match a
    case Sourced(source) => source.device == "" || source.port == 0
    case Said(text) => text == ""
  }

  /** The transfers of a download: the file at the start of each, those that were waited for, and
      those Cancel was called for. `orphans` may go on unattended, because their request reported an
      error or their Cancel failed; `active` may still write the file. */
  datatype Transfers = Transfers(
    starts: seq<File>, waits: map<nat, Wait>, cancelled: set<nat>, orphans: set<nat>, active: set<nat>)
  {
    /** Between requests: each transfer was waited for or is an orphan, only orphans may still
        write, Cancel was called for exactly the awaited transfers that were not over, and a transfer
        starts with no file at the target unless there is an orphan. */
    ghost predicate Settled() {
      && (forall k | 0 <= k < |starts| :: k in waits || k in orphans)
      && (forall k | k in waits || k in orphans :: k < |starts|)
      && active <= orphans
      && (forall k :: k in cancelled <==> k in waits && !Over(waits[k].news))
      && (forall k | k in waits && waits[k].verdict == Value(true) :: Complete(waits[k].found, waits[k].expected))
      && (forall k | 0 <= k < |starts| && Exists(starts[k]) :: exists o :: o in orphans && o < k)
    }

    /** What was known of earlier transfers stays; `r` is true just when the last of the later ones
        was waited for successfully. */
    ghost predicate Extends(before: Transfers, r: bool) {
      && before.starts <= starts && before.orphans <= orphans
      && (forall k | k in before.waits :: k in waits && waits[k] == before.waits[k])
      && (forall k | k in waits && k < |before.starts| :: k in before.waits)
      && (!r ==> forall k | |before.starts| <= k && k in waits :: waits[k].verdict != Value(true))
      && (r ==> |before.starts| < |starts| && |starts| - 1 in waits && waits[|starts| - 1].verdict == Value(true))
    }
  }

  lemma ExtendsFurther(t0: Transfers, t1: Transfers, t2: Transfers, r: bool)
    requires t1.Extends(t0, false) && t2.Extends(t1, r)
    ensures t2.Extends(t0, r)
  {
  }

  /** Without orphans each transfer started with no file at the target, is over or was cancelled, and
      none still writes. */
  lemma NothingIsLeftOver(t: Transfers)
    requires t.Settled() && t.orphans == {}
    ensures t.active == {}
    ensures forall k | 0 <= k < |t.starts| ::
              !Exists(t.starts[k]) && k in t.waits && (Over(t.waits[k].news) || k in t.cancelled)
  {
  }

  // ---------------------------------------------------------------- rounds and results

  /** How far a round got that the thumbnail did not end: to the image proxy, to the call asking for
      descriptions of the image, or to their types. */
  datatype Round = NoProxy | NoAnswer | Answered(types: seq<string>)

  /** What a round that does not succeed has asked for: the proxy alone; the thumbnail and the
      descriptions, in vain; the thumbnail and, if it is described, the native image. */
  function Asked(x: Round): nat {
    match x
    case NoProxy => 1
    case NoAnswer => 2
    case Answered(types) => if "native" in types then 2 else 1
  }

  function AskedInAll(xs: seq<Round>): nat {
    if xs == [] then 0 else AskedInAll(xs[..|xs| - 1]) + Asked(xs[|xs| - 1])
  }

  lemma AskedSnoc(xs: seq<Round>, x: Round)
    ensures AskedInAll(xs + [x]) == AskedInAll(xs) + Asked(x)
  {
    assert (xs + [x])[..|xs|] == xs;
  }

  lemma AskedOneMore(xs: seq<Round>, ys: seq<Round>, from: nat)
    requires xs <= ys && |ys| == |xs| + 1 && from <= |xs|
    ensures AskedInAll(ys[from..]) == AskedInAll(xs[from..]) + Asked(ys[|xs|])
  {
    assert ys[from..] == xs[from..] + [ys[|xs|]];
    AskedSnoc(xs[from..], ys[|xs|]);
  }

  lemma FailedFurther(t0: Transfers, t1: Transfers, t2: Transfers)
    requires AllFailed(t0, t1) && AllFailed(t1, t2)
    requires forall k | k in t1.waits :: k in t2.waits && t2.waits[k] == t1.waits[k]
    ensures AllFailed(t0, t2)
  {
  }

  /** No lookup since has come back empty. */
  ghost predicate NoneEmpty(before: seq<Answer>, after: seq<Answer>) {
    before <= after && forall i | |before| <= i < |after| :: after[i] != Said("")
  }

  /** Every transfer waited for since then was found to have failed. */
  ghost predicate AllFailed(before: Transfers, after: Transfers) {
    forall k | k in after.waits && k !in before.waits :: after.waits[k].verdict == Value(false)
  }

  datatype Result = Success | InvalidArgument | NotFound | OperationFailed | Raised(error: Error)

  /** What a download has recorded so far. */
  datatype Record = Record(
    transfers: Transfers, errors: nat, answers: seq<Answer>, thumbnails: nat, rounds: seq<Round>,
    invalidated: seq<string>)

  /** `n` rounds, none of which has succeeded; `caught` tells whether one of them caught a D-Bus error. */
  ghost predicate Tried(before: Record, after: Record, n: nat, caught: bool, existingOnly: bool) {
    && before.rounds <= after.rounds && |after.rounds| == |before.rounds| + n
    && NoneEmpty(before.answers, after.answers)
    && before.errors <= after.errors && (caught <==> after.errors > before.errors)
    && after.errors + |after.transfers.waits|
       == before.errors + |before.transfers.waits| + AskedInAll(after.rounds[|before.rounds|..])
    && AllFailed(before.transfers, after.transfers)
    && (!caught ==>
          && (forall i | |before.rounds| <= i < |after.rounds| :: after.rounds[i].Answered?)
          && after.thumbnails == before.thumbnails + n
          && |after.transfers.starts| >= |before.transfers.starts| + n)
    && |after.transfers.starts| <= |before.transfers.starts| + 2 * n
    && |after.invalidated| == |before.invalidated| + (if existingOnly then 0 else n)
    && (existingOnly ==> after.invalidated == before.invalidated)
  }

  lemma AskedOnce(xs: seq<Round>, ys: seq<Round>)
    requires xs <= ys && |ys| == |xs| + 1
    ensures AskedInAll(ys[|xs|..]) == Asked(ys[|xs|])
  {
    assert ys[|xs|..] == [ys[|xs|]];
  }

  lemma TriedAgain(a: Record, b: Record, c: Record, n: nat, caught: bool, again: bool, existingOnly: bool)
    requires Tried(a, b, n, caught, existingOnly) && Tried(b, c, 1, again, existingOnly)
    requires c.transfers.Extends(b.transfers, false)
    ensures Tried(a, c, n + 1, caught || again, existingOnly)
  {
    AskedOneMore(b.rounds, c.rounds, |a.rounds|);
    AskedOnce(b.rounds, c.rounds);
    FailedFurther(a.transfers, b.transfers, c.transfers);
  }

  /** What is known after a round, or after its second part, that has not succeeded: each of the `asked`
      requests it made has reported an error or led to a transfer that was waited for and had failed. */
  ghost predicate Spent(before: Record, after: Record, asked: nat, caught: bool) {
    && |after.rounds| == |before.rounds| + 1 && before.rounds <= after.rounds
    && after.errors + |after.transfers.waits| == before.errors + |before.transfers.waits| + asked
    && AllFailed(before.transfers, after.transfers)
    && (caught || after.rounds[|before.rounds|].Answered?)
    && after.errors >= before.errors && (caught <==> after.errors > before.errors)
  }

  /** The thumbnail, then the image. */
  lemma SpentOnBoth(before: Record, between: Record, after: Record, caught: bool, again: bool)
    requires between.rounds == before.rounds && AllFailed(before.transfers, between.transfers)
    requires between.errors + |between.transfers.waits| == before.errors + |before.transfers.waits| + 1
    requires between.errors >= before.errors && (caught <==> between.errors > before.errors)
    requires |after.rounds| == |before.rounds| + 1 && !after.rounds[|before.rounds|].NoProxy?
    requires Spent(between, after, Asked(after.rounds[|before.rounds|]) - 1, again)
    requires after.transfers.Extends(between.transfers, false)
    ensures Spent(before, after, Asked(after.rounds[|before.rounds|]), caught || again)
  {
    FailedFurther(before.transfers, between.transfers, after.transfers);
  }

  lemma OneRound(before: Record, after: Record, caught: bool, existingOnly: bool)
    requires after.answers == before.answers && |after.rounds| == |before.rounds| + 1
    requires var x := after.rounds[|before.rounds|];
      && Spent(before, after, Asked(x), caught)
      && after.thumbnails == before.thumbnails + if x.NoProxy? then 0 else 1
    requires !caught ==> |after.transfers.starts| > |before.transfers.starts|
    requires |after.transfers.starts| <= |before.transfers.starts| + 2
    requires existingOnly ==> after.invalidated == before.invalidated
    requires !existingOnly ==> |after.invalidated| == |before.invalidated| + 1
    ensures Tried(before, after, 1, caught, existingOnly)
  {
    assert before.rounds[|before.rounds|..] == [];
    AskedOneMore(before.rounds, after.rounds, |before.rounds|);
  }

  lemma PreparedThen(before: Record, prepared: Record, after: Record, left: nat, r: Option<Result>, caught: bool,
                     existingOnly: bool)
    requires prepared == before.(answers := prepared.answers) && NoneEmpty(before.answers, prepared.answers)
    requires after.answers == prepared.answers
    requires if r.None? then Tried(prepared, after, 1, caught, existingOnly)
             else r.value != NotFound && EndsRound(prepared, after, left, r.value)
    ensures if r.None? then Tried(before, after, 1, caught, existingOnly) else EndsRound(before, after, left, r.value)
  {
  }

  lemma NothingTried(a: Record, existingOnly: bool)
    ensures Tried(a, a, 0, false, existingOnly)
  {
  }

  /** What each result means. Plain failure comes after a transfer in every attempt, and a second one
      in those in which a native image was described, all waited for in vain and without any D-Bus
      error. A D-Bus error is one that was reported, and running out of time means that no time is left.
      Not-found is the result just when a lookup found nothing. */
  ghost predicate Ends(before: Record, after: Record, left: nat, existingOnly: bool, r: Result) {
    var attempts := if existingOnly then 1 else 2;
    && |after.transfers.starts| <= |before.transfers.starts| + 2 * attempts
    && (existingOnly ==> after.invalidated == before.invalidated)
    && (r == OperationFailed ==>
          && after.thumbnails == before.thumbnails + attempts && after.errors == before.errors
          && |after.transfers.starts| >= |before.transfers.starts| + attempts
          && (!existingOnly ==> |after.invalidated| == |before.invalidated| + 2)
          && FailedRounds(before, after, attempts))
    && (r == Raised(TimedOut) ==> left == 0)
    && (r == NotFound ==>
          after.answers != [] &&
          match after.answers[|after.answers| - 1]
          case Sourced(source) => source.device == "" || source.port == 0
          case Said(text) => text == "")
    && (r != NotFound ==> NoneEmpty(before.answers, after.answers))
    && (r.Raised? && r.error.DBusError? ==> after.errors > before.errors)
  }

  /** The same of one round that ends the download. */
  ghost predicate EndsRound(before: Record, after: Record, left: nat, r: Result) {
    && (r == Success || r == NotFound || r.Raised?)
    && |after.transfers.starts| <= |before.transfers.starts| + 2
    && after.invalidated == before.invalidated && before.errors <= after.errors
    && (r == Raised(TimedOut) ==> left == 0)
    && (r == NotFound ==> after.answers != [] && Nothing(after.answers[|after.answers| - 1]))
    && (r != NotFound ==> NoneEmpty(before.answers, after.answers))
    && (r.Raised? && r.error.DBusError? ==> after.errors > before.errors)
  }

  lemma EndsAfter(before: Record, between: Record, after: Record, n: nat, caught: bool, existingOnly: bool,
                  left: nat, r: Result)
    requires Tried(before, between, n, caught, existingOnly) && n < (if existingOnly then 1 else 2)
    requires EndsRound(between, after, left, r)
    ensures Ends(before, after, left, existingOnly, r)
  {
  }

  /** The result of looking for the source, or of the attempts made after it was found. */
  lemma EndsUnsourced(before: Record, after: Record, left: nat, existingOnly: bool, r: Result)
    requires after == before.(answers := after.answers, errors := after.errors)
    requires r == NotFound || r.Raised?
    requires r == NotFound ==> after.answers != [] && Nothing(after.answers[|after.answers| - 1])
    requires r != NotFound ==> NoneEmpty(before.answers, after.answers)
    requires r == Raised(TimedOut) ==> left == 0
    requires r.Raised? && r.error.DBusError? ==> after.errors > before.errors
    ensures Ends(before, after, left, existingOnly, r)
  {
  }

  lemma EndsSourced(before: Record, sourced: Record, after: Record, left: nat, existingOnly: bool, r: Result)
    requires sourced == before.(answers := sourced.answers) && NoneEmpty(before.answers, sourced.answers)
    requires Ends(sourced, after, left, existingOnly, r)
    ensures Ends(before, after, left, existingOnly, r)
    ensures r != NotFound && |sourced.answers| > |before.answers| && SourceFound(before.answers, sourced.answers) ==>
              SourceFound(before.answers, after.answers)
  {
  }

  lemma EndsInVain(before: Record, after: Record, caught: bool, existingOnly: bool, left: nat)
    requires Tried(before, after, if existingOnly then 1 else 2, caught, existingOnly)
    ensures Ends(before, after, left, existingOnly, if caught then Raised(DBusError(false)) else OperationFailed)
  {
  }

  /** Each of the rounds since then got an answer to its Properties call, and there were as many
      transfers waited for as these rounds asked for, all of which failed. */
  ghost predicate FailedRounds(before: Record, after: Record, n: nat) {
    && before.rounds <= after.rounds && |after.rounds| == |before.rounds| + n
    && (forall i | |before.rounds| <= i < |after.rounds| :: after.rounds[i].Answered?)
    && |after.transfers.waits| == |before.transfers.waits| + AskedInAll(after.rounds[|before.rounds|..])
    && AllFailed(before.transfers, after.transfers)
  }

  /** The first lookup since then, which is for the source of the image, named a device and port. */
  ghost predicate SourceFound(before: seq<Answer>, after: seq<Answer>) {
    |after| > |before| && after[|before|].Sourced? ==>
      after[|before|].source.device != "" && after[|before|].source.port != 0
  }

  class Download {
    /** The session table, which other threads use as well. */
    const sessions: SharedService
    /** What is at the target path, and the time left until the deadline. */
    var file: File
    var left: nat
    /** Players whose session was invalidated, in order. */
    var invalidated: seq<string>
    var transfers: Transfers
    /** What the lookups said, and how many D-Bus errors there were outside of waiting. */
    var answers: seq<Answer>
    var errors: nat
    /** How often a thumbnail was asked for. */
    var thumbnails: nat
    /** The rounds, of those not ended by their thumbnail. */
    var rounds: seq<Round>

    constructor (sessions: SharedService, file: File, timeLeft: nat)
      ensures this.sessions == sessions && this.file == file && left == timeLeft && invalidated == []
      ensures transfers == Transfers([], map[], {}, {}, {})
      ensures thumbnails == 0 && answers == [] && errors == 0 && rounds == []
      ensures transfers.Settled()
    {
      this.sessions := sessions;
      this.file, left, invalidated, transfers := file, timeLeft, [], Transfers([], map[], {}, {}, {});
      thumbnails, answers, errors, rounds := 0, [], 0, [];
    }

    // -------------------------------------------------------------- the surroundings

    /** Time passes; obexd may write the file for an active transfer. */
    method Elapse()
      modifies this`file, this`left
      ensures left <= old(left)
      ensures transfers.active == {} ==> file == old(file)
    {
      var rest: nat :| rest <= left;
      left := rest;
      if transfers.active != {} {
        var written: File := *;
        file := written;
      }
    }

    /** sleep_for(100ms) uses up time that is left. */
    method Sleep()
      modifies this`file, this`left
      ensures left < old(left) || left == 0
      ensures transfers.active == {} ==> file == old(file)
    {
      Elapse();
      if left > 0 { left := left - 1; }
    }

    /** A call bounded by the deadline: remaining_timeout, then the reply or an error. */
    method Call() returns (r: Reply<()>)
      modifies this`file, this`left
      ensures left <= old(left) && (old(left) == 0 ==> r == Throws(TimedOut))
      ensures r == Throws(TimedOut) ==> left == 0
      ensures transfers.active == {} ==> file == old(file)
    {
      Elapse();
      if left == 0 { return Throws(TimedOut); }
      Elapse();
      var fails: bool := *;
      var unknown: bool := *;
      r := if fails then Throws(DBusError(unknown)) else Value(());
    }

    method RemovePartialFile()
      modifies this`file
      ensures file == Missing
    {
      file := Missing;
    }

    // -------------------------------------------------------------- one transfer

    /** One status request. */
    method PollStatus() returns (reply: Reply<Status>)
      modifies this`file, this`left
      ensures left <= old(left) && (reply == Throws(TimedOut) ==> left == 0)
    {
      var called := Call();
      if called.Throws? { return Throws(called.error); }
      var status: Status := *;
      reply := Value(status);
    }

    /** wait_for_transfer with its TransferCleanup: on the way out the transfer is over or Cancel
        has been called, and it writes no more unless that call failed. */
    method WaitForTransfer(id: nat, expected: nat) returns (r: Reply<bool>)
      modifies this`file, this`left, this`transfers
      ensures id in transfers.waits
      ensures var w := transfers.waits[id];
        && w.expected == expected && r == w.verdict == Verdict(w.news, w.found, expected)
        && (old(transfers).active <= {id} && (Over(w.news) || Gone(w.news)) ==> file == w.found)
        && w.news != Some(Value(SaysOther))
        && (w.news.None? || w.news == Some(Throws(TimedOut)) ==> left == 0)
        && Ended(old(transfers), id, w, transfers)
        && (r == Value(true) <==>
              && (w.news == Some(Value(SaysComplete)) || w.news == Some(Throws(DBusError(true))))
              && w.found.Regular? && (if expected > 0 then w.found.size == expected else w.found.size > 0))
        && (r.Throws? <==> w.news == Some(Throws(TimedOut)))
        && (id in transfers.cancelled <==>
              || id in old(transfers).cancelled
              || !(w.news == Some(Value(SaysComplete)) || w.news == Some(Value(SaysError))))
    {
      var news: News := None;
      while left > 0 && news.None?
        invariant transfers == old(transfers)
        invariant news != Some(Value(SaysOther)) && (news == Some(Throws(TimedOut)) ==> left == 0)
        decreases left, news.None?
      {
        var reply := PollStatus();
        if reply == Value(SaysOther) {
          Sleep();
        } else {
          news := Some(reply);
        }
      }
      match news {
        case None => r := Value(false);
        case Some(Value(status)) => r := Value(status.SaysComplete? && Complete(file, expected));
        case Some(Throws(DBusError(unknownObject))) => r := Value(unknownObject && Complete(file, expected));
        case Some(Throws(TimedOut)) => r := Throws(TimedOut);
      }
      LeaveTransfer(id, Wait(expected, news, file, r));
    }

    /** Cancel is called unless the transfer is over. It has stopped then, or Cancel failed and it
        goes on as an orphan. */
    ghost predicate Ended(before: Transfers, id: nat, w: Wait, after: Transfers) {
      && after.starts == before.starts && after.waits == before.waits[id := w]
      && after.cancelled == before.cancelled + (if Over(w.news) then {} else {id})
      && (|| (after.active == before.active - {id} && after.orphans == before.orphans)
          || (after.active == before.active && after.orphans == before.orphans + {id}
              && !Over(w.news) && !Gone(w.news)))
    }

    /** ~TransferCleanup. Errors of Cancel are ignored. */
    method LeaveTransfer(id: nat, w: Wait)
      modifies this`file, this`left, this`transfers
      ensures old(transfers).active <= {id} && (Over(w.news) || Gone(w.news)) ==> file == old(file)
      ensures Ended(old(transfers), id, w, transfers) && left <= old(left)
    {
      transfers := transfers.(waits := transfers.waits[id := w]);
      if Over(w.news) || Gone(w.news) { transfers := transfers.(active := transfers.active - {id}); }
      if !Over(w.news) {
        // The Cancel call takes time; if it succeeds, the transfer has stopped.
        Elapse();
        transfers := transfers.(cancelled := transfers.cancelled + {id});
        var fails: bool := *;
        transfers :=
          if fails && !Gone(w.news) then transfers.(orphans := transfers.orphans + {id})
          else transfers.(active := transfers.active - {id});
      }
    }

    /** Nothing but a transfer nobody waits for can have put a file at the target path. */
    ghost predicate Clear()
      reads this`transfers, this`file
    {
      transfers.Settled() && (transfers.active == {} ==> !Exists(file))
    }

    /** Transfers were made after `before`, the last of them successfully if `r`; then the file is the
        complete one unless an orphan writes it. */
    ghost predicate Fetched(before: Transfers, r: bool)
      reads this`transfers, this`file
    {
      && transfers.Settled() && transfers.Extends(before, r)
      && (r && transfers.active == {} ==> file == transfers.waits[|transfers.starts| - 1].found)
    }

    /** get_thumbnail and get_image: the request, then the wait. A request may report an error
        although obexd did start the transfer. */
    method Fetch() returns (r: Reply<bool>)
      requires Clear()
      modifies this`file, this`left, this`transfers, this`errors
      ensures Fetched(old(transfers), r == Value(true))
      ensures r == Throws(TimedOut) ==> left == 0
      ensures errors == old(errors) + if r.Throws? && r.error.DBusError? then 1 else 0
      ensures |transfers.starts| <= |old(transfers).starts| + 1
      ensures r.Value? ==>
        var k := |old(transfers).starts|;
        |transfers.starts| == k + 1 && k in transfers.waits && transfers.waits[k].verdict == r
      ensures r.Value? ==> |transfers.waits| == |old(transfers).waits| + 1
      ensures r.Throws? && r.error.DBusError? ==> transfers.waits == old(transfers).waits
      ensures r != Value(true) && r != Throws(TimedOut) ==> AllFailed(old(transfers), transfers)
    {
      Elapse();
      if left == 0 { return Throws(TimedOut); }
      var fails: bool := *;
      if fails {
        FailRequest();
        return Throws(DBusError(false));
      }
      var id := |transfers.starts|;
      Begin();
      Elapse();
      var expected: nat := *;
      ghost var begun := transfers;
      r := WaitForTransfer(id, expected);
      EndedIsSettled(old(transfers), begun, id, transfers.waits[id], transfers);
    }

    lemma EndedIsSettled(before: Transfers, begun: Transfers, id: nat, w: Wait, after: Transfers)
      requires before.Settled() && id == |before.starts| && |begun.starts| == id + 1
      requires begun == before.(starts := before.starts + [begun.starts[id]], active := before.active + {id})
      requires Exists(begun.starts[id]) ==> exists o :: o in before.orphans && o < id
      requires Ended(begun, id, w, after) && w.verdict == Verdict(w.news, w.found, w.expected)
      ensures after.Settled() && after.Extends(before, w.verdict == Value(true))
    {
    }

    /** The request reports an error; the transfer, if it began, is an orphan. */
    method FailRequest()
      requires Clear()
      modifies this`file, this`left, this`transfers, this`errors
      ensures Fetched(old(transfers), false)
      ensures errors == old(errors) + 1 && |transfers.starts| <= |old(transfers).starts| + 1
      ensures transfers.waits == old(transfers).waits
    {
      errors := errors + 1;
      var begins: bool := *;
      if begins {
        Begin();
        transfers := transfers.(orphans := transfers.orphans + {|transfers.starts| - 1});
      }
      Elapse();
    }

    /** obexd starts a transfer. */
    method Begin()
      requires Clear()
      modifies this`transfers
      ensures var before, id := old(transfers), |old(transfers).starts|;
        && transfers == before.(starts := before.starts + [file], active := before.active + {id})
        && (Exists(file) ==> exists o :: o in before.orphans && o < id)
    {
      ghost var before := transfers;
      transfers := transfers.(starts := transfers.starts + [file], active := transfers.active + {|transfers.starts|});
      if before.active != {} {
        ghost var o :| o in before.active;
        assert o in before.orphans && o < |before.starts|;
      }
    }

    // -------------------------------------------------------------- one attempt

    /** The body of get_impl's outer try: thumbnail first, then the native image. `caught` tells
        whether a D-Bus error was caught and kept; only a timeout leaves as an exception. */
    method TryTransfers() returns (r: Reply<bool>, caught: bool)
      requires Clear()
      modifies this`file, this`left, this`transfers, this`thumbnails, this`errors, this`rounds
      ensures Fetched(old(transfers), r == Value(true))
      ensures r.Throws? ==> r.error == TimedOut && left == 0
      ensures |transfers.starts| <= |old(transfers).starts| + 2
      ensures r == Value(false) ==>
        && |rounds| == |old(rounds)| + 1
        && Spent(old(Recording()), Recording(), Asked(rounds[|old(rounds)|]), caught)
        && thumbnails == old(thumbnails) + if rounds[|old(rounds)|].NoProxy? then 0 else 1
      ensures r == Value(false) && !caught ==> |transfers.starts| > |old(transfers).starts|
      ensures errors >= old(errors)
    {
      var noProxy: bool := *;
      if noProxy {
        errors, rounds := errors + 1, rounds + [NoProxy];
        return Value(false), true;
      }
      r, caught := TryBoth();
    }

    /** Its part on the image proxy. */
    method TryBoth() returns (r: Reply<bool>, caught: bool)
      requires Clear()
      modifies this`file, this`left, this`transfers, this`thumbnails, this`errors, this`rounds
      ensures Fetched(old(transfers), r == Value(true))
      ensures r.Throws? ==> r.error == TimedOut && left == 0
      ensures |transfers.starts| <= |old(transfers).starts| + 2 && thumbnails == old(thumbnails) + 1
      ensures r == Value(false) ==>
        && |rounds| == |old(rounds)| + 1 && !rounds[|old(rounds)|].NoProxy?
        && Spent(old(Recording()), Recording(), Asked(rounds[|old(rounds)|]), caught)
      ensures r == Value(false) && !caught ==> |transfers.starts| > |old(transfers).starts|
      ensures errors >= old(errors)
    {
      ghost var before := Recording();
      r, caught := TryThumbnail();
      if r != Value(false) { return; }
      var imageCaught;
      ghost var between := Recording();
      r, imageCaught := TryImage();
      ExtendsFurther(before.transfers, between.transfers, transfers, r == Value(true));
      if r == Value(false) { SpentOnBoth(before, between, Recording(), caught, imageCaught); }
      caught := caught || imageCaught;
    }

    /** The thumbnail; without success the target is cleared. */
    method TryThumbnail() returns (r: Reply<bool>, caught: bool)
      requires Clear()
      modifies this`file, this`left, this`transfers, this`thumbnails, this`errors
      ensures Fetched(old(transfers), r == Value(true))
      ensures r.Throws? ==> r.error == TimedOut && left == 0
      ensures |transfers.starts| <= |old(transfers).starts| + 1 && thumbnails == old(thumbnails) + 1
      ensures r == Value(false) ==>
        && Clear() && AllFailed(old(transfers), transfers)
        && errors + |transfers.waits| == old(errors) + |old(transfers).waits| + 1
        && (caught || |transfers.starts| > |old(transfers).starts|)
      ensures errors >= old(errors) && (caught <==> errors > old(errors))
    {
      thumbnails := thumbnails + 1;
      r, caught := FetchCatching();
      if r == Value(false) { RemovePartialFile(); }
    }

    /** A request in the try block: a D-Bus error is caught and kept. */
    method FetchCatching() returns (r: Reply<bool>, caught: bool)
      requires Clear()
      modifies this`file, this`left, this`transfers, this`errors
      ensures Fetched(old(transfers), r == Value(true))
      ensures r.Throws? ==> r.error == TimedOut && left == 0
      ensures |transfers.starts| <= |old(transfers).starts| + 1
      ensures r == Value(false) ==>
        && AllFailed(old(transfers), transfers)
        && errors + |transfers.waits| == old(errors) + |old(transfers).waits| + 1
        && (caught || |transfers.starts| > |old(transfers).starts|)
      ensures errors >= old(errors) && (caught <==> errors > old(errors))
    {
      r := Fetch();
      caught := r.Throws? && r.error.DBusError?;
      if caught { r := Value(false); }
    }

    /** The native image, if obexd describes one. */
    method TryImage() returns (r: Reply<bool>, caught: bool)
      requires Clear()
      modifies this`file, this`left, this`transfers, this`errors, this`rounds
      ensures Fetched(old(transfers), r == Value(true))
      ensures r.Throws? ==> r.error == TimedOut && left == 0
      ensures |transfers.starts| <= |old(transfers).starts| + 1
      ensures r == Value(false) ==>
        && |rounds| == |old(rounds)| + 1 && !rounds[|old(rounds)|].NoProxy?
        && Spent(old(Recording()), Recording(), Asked(rounds[|old(rounds)|]) - 1, caught)
      ensures errors >= old(errors)
    {
      caught := false;
      var reply, types := GetDescriptions();
      if reply == Throws(TimedOut) { return Throws(TimedOut), false; }
      if reply.Throws? {
        errors, rounds := errors + 1, rounds + [NoAnswer];
        return Value(false), true;
      }
      rounds := rounds + [Answered(types)];
      var described := IsDescribed(types);
      if !described { return Value(false), false; }
      r, caught := FetchCatching();
    }

    /** The Properties call: the types of the image's descriptions. */
    method GetDescriptions() returns (r: Reply<()>, types: seq<string>)
      modifies this`file, this`left
      ensures left <= old(left) && (r == Throws(TimedOut) ==> left == 0)
      ensures transfers.active == {} ==> file == old(file)
    {
      r := Call();
      types := *;
    }

    /** The search of preferred_description. */
    method IsDescribed(types: seq<string>) returns (found: bool)
      ensures found <==> "native" in types
    {
      found := false;
      for i := 0 to |types|
        invariant !found && "native" !in types[..i]
      {
        if types[i] == "native" { return true; }
      }
      assert types[..|types|] == types;
    }

    /** A lookup that throws is counted, one that answers is recorded. */
    twostate predicate Recorded(throws: bool, dbusError: bool, a: Answer)
      reads this
    {
      && errors == old(errors) + (if dbusError then 1 else 0)
      && answers == old(answers) + if throws then [] else [a]
    }

    method Count(e: Error)
      modifies this`errors
      ensures errors == old(errors) + if e.DBusError? then 1 else 0
    {
      if e.DBusError? { errors := errors + 1; }
    }

    /** get_cover_art_source and get_device_address. */
    method GetSource() returns (r: Reply<Source>)
      modifies this`file, this`left, this`answers, this`errors
      ensures Recorded(r.Throws?, r.Throws? && r.error.DBusError?, if r.Value? then Sourced(r.value) else Said(""))
      ensures left <= old(left) && (old(left) == 0 || r == Throws(TimedOut) ==> r == Throws(TimedOut) && left == 0)
      ensures transfers.active == {} ==> file == old(file)
    {
      var reply := Call();
      if reply.Throws? {
        Count(reply.error);
        return Throws(reply.error);
      }
      var device: string, handle: string, port: nat, player: string := *, *, *, *;
      r := Value(Source(device, handle, port, player));
      answers := answers + [Sourced(r.value)];
    }

    method GetText() returns (r: Reply<string>)
      modifies this`file, this`left, this`answers, this`errors
      ensures Recorded(r.Throws?, r.Throws? && r.error.DBusError?, if r.Value? then Said(r.value) else Said(""))
      ensures left <= old(left) && (r == Throws(TimedOut) ==> left == 0)
      ensures transfers.active == {} ==> file == old(file)
    {
      var reply := Call();
      if reply.Throws? {
        Count(reply.error);
        return Throws(reply.error);
      }
      var text: string := *;
      answers := answers + [Said(text)];
      r := Value(text);
    }

    /** The path of the session to use, empty if there is none: find_session, or else
        register_player and a look at the table. */
    method FindSession(existingOnly: bool, source: Source) returns (r: Reply<string>)
      requires sessions.Valid()
      modifies this`file, this`left, this`answers, this`errors, sessions`trace, sessions.service
      ensures Recorded(r.Throws?, r.Throws? && r.error.DBusError?, if r.Value? then Said(r.value) else Said(""))
      ensures left <= old(left) && (r == Throws(TimedOut) ==> left == 0)
      ensures transfers.active == {} ==> file == old(file)
      ensures sessions.Valid() && old(sessions.trace) <= sessions.trace
      ensures existingOnly ==> sessions.trace == old(sessions.trace)
      ensures !existingOnly && r.Value? ==>
        var service := sessions.service;
        r.value == if source.player in service.players
                      && service.players[source.player].address in service.sessions
                   then service.sessions[service.players[source.player].address].objectPath else ""
    {
      if existingOnly {
        r := GetText();
        return;
      }
      var registered := sessions.RegisterPlayer(source.player, source.device, source.port);
      Elapse();
      if !registered {
        var error := if left == 0 then TimedOut else DBusError(false);
        Count(error);
        return Throws(error);
      }
      sessions.OtherThreads();
      var path := sessions.SessionOf(source.player);
      r := Value(if path.Some? then path.value else "");
      answers := answers + [Said(r.value)];
    }

    /** wait_for_image_handle: empty when the deadline passes first. */
    method WaitForImageHandle() returns (r: Reply<string>)
      modifies this`file, this`left, this`answers, this`errors
      ensures errors == old(errors) + if r.Throws? && r.error.DBusError? then 1 else 0
      ensures r == Value("") ==> answers != [] && answers[|answers| - 1] == Said("")
      ensures r != Value("") ==> NoneEmpty(old(answers), answers)
      ensures r == Value("") || r == Throws(TimedOut) ==> left == 0
      ensures left <= old(left)
      ensures transfers.active == {} ==> file == old(file)
    {
      while left > 0
        invariant left <= old(left) && errors == old(errors) && NoneEmpty(old(answers), answers)
        invariant transfers.active == {} ==> file == old(file)
      {
        var source := GetSource();
        if source.Throws? { return Throws(source.error); }
        if source.value.handle != "" { return Value(source.value.handle); }
        Sleep();
      }
      answers := answers + [Said("")];
      r := Value("");
    }

    // -------------------------------------------------------------- get_impl

    /** get_impl. Refused arguments change nothing. Otherwise the file at the end is the complete
        one of a transfer that was waited for, or none; unless an orphan is still writing. */
    method Get(objectPath: string, target: string, timeout: int, existingOnly: bool) returns (r: Result)
      requires transfers.Settled() && sessions.Valid()
      modifies this, sessions`trace, sessions.service
      ensures transfers.Settled()
      ensures r == InvalidArgument <==>
        objectPath == "" || target == "" || timeout <= 0 || target[0] != '/' || old(file.Regular? || file.Irregular?)
      ensures r == InvalidArgument ==> unchanged(this) && unchanged(sessions) && unchanged(sessions.service)
      ensures r != InvalidArgument ==> Fetched(old(transfers), r == Success)
      ensures r != InvalidArgument && r != Success ==> file == Missing
      ensures r != InvalidArgument && transfers.orphans == {} ==> Unattended(old(transfers), r == Success)
      ensures Shared(existingOnly, old(sessions.trace))
      ensures Ends(old(Recording()), Recording(), left, existingOnly, r)
      ensures r != NotFound ==> SourceFound(old(answers), answers)
    {
      if objectPath == "" || target == "" || timeout <= 0 || target[0] != '/' || Exists(file) {
        return InvalidArgument;
      }
      left := timeout;
      r := GetChecked(existingOnly);
    }

    /** No orphan: each transfer made after `before` started with no file at the target and is over
        or was cancelled, none still writes, and the file is complete after a success. */
    ghost predicate Unattended(before: Transfers, success: bool)
      reads this`transfers, this`file
    {
      var t, n := transfers, |transfers.starts|;
      && t.active == {}
      && (success ==> n - 1 in t.waits && file.Regular?
                      && var expected := t.waits[n - 1].expected;
                         if expected > 0 then file.size == expected else file.size > 0)
      && forall k | |before.starts| <= k < n ::
           !Exists(t.starts[k]) && k in t.waits && (Over(t.waits[k].news) || k in t.cancelled)
    }

    /** get_impl after its argument check, with its PartialFile. */
    method GetChecked(existingOnly: bool) returns (r: Result)
      requires Clear() && sessions.Valid()
      modifies this, sessions`trace, sessions.service
      ensures Fetched(old(transfers), r == Success)
      ensures r != InvalidArgument
      ensures r != Success ==> file == Missing
      ensures transfers.orphans == {} ==> Unattended(old(transfers), r == Success)
      ensures Shared(existingOnly, old(sessions.trace))
      ensures Ends(old(Recording()), Recording(), left, existingOnly, r)
      ensures r != NotFound ==> SourceFound(old(answers), answers)
    {
      r := GetGuarded(existingOnly);
      LeaveFile(r == Success);
      if transfers.orphans == {} { NothingIsLeftOver(transfers); }
    }

    /** ~PartialFile. */
    method LeaveFile(complete: bool)
      modifies this`file
      ensures file == if complete then old(file) else Missing
    {
      if !complete { RemovePartialFile(); }
    }

    function Attempts(existingOnly: bool): nat {
      if existingOnly then 1 else 2
    }

    /** NotFound follows a lookup that found nothing, and a D-Bus error is only passed on. */
    predicate Justified(r: Option<Result>, before: nat)
      reads this
    {
      && (r == Some(NotFound) ==> answers != [] && Nothing(answers[|answers| - 1]))
      && before <= errors && (errors > before <==> r.Some? && r.value.Raised? && r.value.error.DBusError?)
    }

    /** The table has gone on as its steps say; not at all if only an existing session was wanted. */
    ghost predicate Shared(existingOnly: bool, before: seq<CoverArtSessions.Action>)
      reads this, sessions, sessions.service
    {
      sessions.Valid() && before <= sessions.trace && (existingOnly ==> sessions.trace == before)
    }

    /** A session and an image handle, or the result without them. */
    method Prepare(existingOnly: bool, source: Source, handle: string) returns (r: Option<Result>, found: string)
      requires sessions.Valid()
      modifies this`file, this`left, this`answers, this`errors, sessions`trace, sessions.service
      ensures Shared(existingOnly, old(sessions.trace))
      ensures Justified(r, old(errors))
      ensures r.Some? ==> r.value == NotFound || r.value.Raised?
      ensures r == Some(Raised(TimedOut)) ==> left == 0
      ensures r != Some(NotFound) ==> NoneEmpty(old(answers), answers)
      ensures transfers.active == {} ==> file == old(file)
    {
      found := handle;
      var session := FindSession(existingOnly, source);
      if session.Throws? { return Some(Raised(session.error)), handle; }
      if session.value == "" { return Some(NotFound), handle; }
      if found == "" {
        var waited := WaitForImageHandle();
        if waited.Throws? { return Some(Raised(waited.error)), handle; }
        found := waited.value;
      }
      r := if found == "" then Some(NotFound) else None;
    }

    ghost function Recording(): Record
      reads this
    {
      Record(transfers, errors, answers, thumbnails, rounds, invalidated)
    }

    /** One round of get_impl's loop. Without a result, the target is clear for the next round. */
    method Attempt(existingOnly: bool, source: Source, handle: string)
      returns (r: Option<Result>, foundHandle: string, caught: bool)
      requires Clear() && sessions.Valid()
      modifies this, sessions`trace, sessions.service
      ensures Shared(existingOnly, old(sessions.trace))
      ensures Fetched(old(transfers), r == Some(Success))
      ensures r.None? ==> Clear() && Tried(old(Recording()), Recording(), 1, caught, existingOnly)
      ensures r.None? ==> invalidated == old(invalidated) + if existingOnly then [] else [source.player]
      ensures r.Some? ==> EndsRound(old(Recording()), Recording(), left, r.value)
    {
      r, foundHandle := Prepare(existingOnly, source, handle);
      caught := false;
      if r.Some? { return; }
      ghost var prepared := Recording();
      r, caught := TryRound(existingOnly, source.player);
      PreparedThen(old(Recording()), prepared, Recording(), left, r, caught, existingOnly);
    }

    /** The part of a round that fetches. */
    method TryRound(existingOnly: bool, player: string) returns (r: Option<Result>, caught: bool)
      requires Clear() && sessions.Valid()
      modifies this`file, this`left, this`transfers, this`thumbnails, this`errors, this`rounds, this`invalidated,
               sessions`trace, sessions.service
      ensures Shared(existingOnly, old(sessions.trace))
      ensures Fetched(old(transfers), r == Some(Success))
      ensures r.None? ==> Clear() && Tried(old(Recording()), Recording(), 1, caught, existingOnly)
      ensures r.None? ==> invalidated == old(invalidated) + if existingOnly then [] else [player]
      ensures r.Some? ==> r.value != NotFound && EndsRound(old(Recording()), Recording(), left, r.value)
    {
      ghost var before := Recording();
      var done;
      done, caught := TryTransfers();
      if done.Throws? { return Some(Raised(TimedOut)), caught; }
      if done.value { return Some(Success), caught; }
      EndRound(existingOnly, player);
      OneRound(before, Recording(), caught, existingOnly);
      r := None;
    }

    /** After a round without success: no file, and no session of the player's. */
    method EndRound(existingOnly: bool, player: string)
      requires sessions.Valid()
      modifies this`file, this`invalidated, sessions`trace, sessions.service
      ensures file == Missing && Shared(existingOnly, old(sessions.trace))
      ensures invalidated == old(invalidated) + if existingOnly then [] else [player]
      ensures !existingOnly ==> sessions.trace == old(sessions.trace) + [CoverArtSessions.Invalidates(player)]
    {
      RemovePartialFile();
      if !existingOnly {
        sessions.Invalidate(player);
        invalidated := invalidated + [player];
      }
    }

    /** get_impl inside the PartialFile guard. */
    method GetGuarded(existingOnly: bool) returns (r: Result)
      requires Clear() && sessions.Valid()
      modifies this, sessions`trace, sessions.service
      ensures Fetched(old(transfers), r == Success)
      ensures r != InvalidArgument
      ensures Shared(existingOnly, old(sessions.trace))
      ensures Ends(old(Recording()), Recording(), left, existingOnly, r)
      ensures r != NotFound ==> SourceFound(old(answers), answers)
    {
      ghost var before := Recording();
      var source;
      r, source := FindSource();
      ghost var sourced := Recording();
      if r != Success {
        EndsUnsourced(before, sourced, left, existingOnly, r);
        return;
      }
      r := RunAttempts(existingOnly, source);
      EndsSourced(before, sourced, Recording(), left, existingOnly, r);
    }

    /** What is known before the attempts; Success stands for going on. */
    method FindSource() returns (r: Result, source: Source)
      modifies this`file, this`left, this`answers, this`errors
      ensures transfers.active == {} ==> file == old(file)
      ensures r == Success || Justified(Some(r), old(errors))
      ensures r == Success ==> errors == old(errors)
      ensures r == Raised(TimedOut) ==> left == 0
      ensures r == Success || r == NotFound || r.Raised?
      ensures r != NotFound ==> NoneEmpty(old(answers), answers) && SourceFound(old(answers), answers)
      ensures r == Success ==> |answers| > |old(answers)|
    {
      var found := GetSource();
      if found.Throws? { return Raised(found.error), Source("", "", 0, ""); }
      source := found.value;
      if source.device == "" || source.port == 0 { return NotFound, source; }
      var address := GetText();
      if address.Throws? { return Raised(address.error), source; }
      r := if address.value == "" then NotFound else Success;
    }

    method RunAttempts(existingOnly: bool, source: Source) returns (r: Result)
      requires Clear() && sessions.Valid()
      modifies this, sessions`trace, sessions.service
      ensures Fetched(old(transfers), r == Success)
      ensures r != InvalidArgument
      ensures Shared(existingOnly, old(sessions.trace))
      ensures Ends(old(Recording()), Recording(), left, existingOnly, r)
    {
      var handle, attempt, failed := source.handle, 0, false;
      ghost var start := Recording();
      NothingTried(start, existingOnly);
      while attempt < Attempts(existingOnly)
        invariant attempt <= Attempts(existingOnly)
        invariant Clear() && Fetched(start.transfers, false) && Shared(existingOnly, old(sessions.trace))
        invariant Tried(start, Recording(), attempt, failed, existingOnly)
      {
        ghost var between := Recording();
        var result, found, caught := Attempt(existingOnly, source, handle);
        ExtendsFurther(start.transfers, between.transfers, transfers, result == Some(Success));
        if result.Some? {
          EndsAfter(start, between, Recording(), attempt, failed, existingOnly, left, result.value);
          return result.value;
        }
        TriedAgain(start, between, Recording(), attempt, failed, caught, existingOnly);
        handle, failed, attempt := found, failed || caught, attempt + 1;
      }
      // The kept error is thrown again.
      r := if failed then Raised(DBusError(false)) else OperationFailed;
      EndsInVain(start, Recording(), failed, existingOnly, left);
    }
  }
}
