/**
 * ORTB and VAST handlers, beacons and sweeper in one run: who fires a win or billing notice, and
 * what of it is left in the response that goes out.
 */
module Delivery {
  import opened Options
  import opened Deduper
  import opened Notices
  import B = Beacons
  import V = VastResponse
  import VastInjection
  import opened Text

  /** The steps of the ORTB handler behind the demand's answer, in their order. */
  datatype Phase = Answered | Picked | Notified | Stored | Blanked | Sent

  function Order(p: Phase): nat {
    match p
    case Answered => 0
    case Picked => 1
    case Notified => 2
    case Stored => 3
    case Blanked => 4
    case Sent => 5
  }

  /**
   * A request that demand has answered. ORTB: the response as it came and as it is now, the winning
   * bid, the win notice that was fired and the number of the billing notice that was stored; `resolve`
   * substitutes the auction's macros. VAST: the winning bid, and the answer once it is built and sent.
   */
  datatype Job =
    | Ortb(cfg: Config, auctionID: string, resolve: string -> string, asked: seq<SeatBid>,
           phase: Phase, win: Option<Candidate>, seats: seq<SeatBid>, fired: Option<string>, entry: Option<nat>)
    | Vast(bid: V.Win, impressionURL: string, events: seq<VastInjection.Tracking>, world: V.World, served: Option<V.Served>)

  /** `log[e]` is the job that stored billing notice `e`. */
  datatype State = State(beacons: B.State, jobs: seq<Job>, log: seq<nat>)

  datatype Action =
    | OrtbAnswer(cfg: Config, auctionID: string, resolve: string -> string, seats: seq<SeatBid>)
    | VastAnswer(bid: V.Win, impressionURL: string, events: seq<VastInjection.Tracking>, world: V.World)
    | Pick(job: nat, w: nat)      // extractWinningBid finds candidate w
    | PickNone(job: nat)          // ... or none; the response goes out as it is
    | FireWin(job: nat)           // fireWinNotice, with markup only
    | StoreBilling(job: nat)      // pendingBURLs.Store
    | Blank(job: nat)             // the rewriting loops
    | Send(job: nat)
    | BuildVast(job: nat)         // buildVASTResponse; its answer goes out
    | Beacon(step: B.Action)      // beacons, clock and sweeper

  ghost predicate AtPhase(s: State, j: nat, p: Phase) {
    j < |s.jobs| && s.jobs[j].Ortb? && s.jobs[j].phase == p
  }

  function KeyOf(job: Job): ImpressionKey
    requires job.Ortb? && job.win.Some?
  {
    ImpressionKey(job.auctionID, job.win.value.bid.id)
  }

  function BillingUrl(job: Job): string
    requires job.Ortb? && job.win.Some?
  {
    job.resolve(job.win.value.bid.burl)
  }

  function WinUrl(job: Job): string
    requires job.Ortb? && job.win.Some?
  {
    job.resolve(job.win.value.bid.nurl)
  }

  predicate HasMarkup(job: Job)
    requires job.Ortb? && job.win.Some?
  {
    NormalizeAdM(job.win.value.bid.adm) != ""
  }

  function RewriteBids(bids: seq<Bid>, seat: string, win: Candidate): seq<Bid> {
    seq(|bids|, i requires 0 <= i < |bids| => Rewrite(bids[i], seat, win))
  }

  function RewriteAll(seats: seq<SeatBid>, win: Candidate): seq<SeatBid> {
    seq(|seats|, i requires 0 <= i < |seats| => SeatBid(seats[i].seat, RewriteBids(seats[i].bids, seats[i].seat, win)))
  }

  /** One step of one ORTB handler that touches nothing but its own response. */
  ghost function Local(job: Job, a: Action): Job
    requires job.Ortb?
  {
    match a
    case Pick(_, w) =>
      var cs := Candidates(job.asked, |job.asked|);
      if Wins(cs, job.cfg, w) then job.(phase := Picked, win := Some(cs[w])) else job
    case PickNone(_) =>
      if forall c :: c in Candidates(job.asked, |job.asked|) ==> !Eligible(c, job.cfg) then job.(phase := Sent) else job
    case FireWin(_) =>
      if job.win.Some?
      then job.(phase := Notified, fired := NonEmpty(if HasMarkup(job) then WinUrl(job) else ""))
      else job
    case Blank(_) => if job.win.Some? then job.(phase := Blanked, seats := RewriteAll(job.seats, job.win.value)) else job
    case Send(_) => job.(phase := Sent)
    case _ => job
  }

  function PhaseFor(a: Action): Phase {
    match a
    case FireWin(_) => Picked
    case StoreBilling(_) => Notified
    case Blank(_) => Stored
    case Send(_) => Blanked
    case _ => Answered
  }

  /** The effect of an action; one that is not possible has none. */
  ghost function Next(s: State, a: Action): State {
    match a
    case OrtbAnswer(cfg, auctionID, resolve, seats) =>
      s.(jobs := s.jobs + [Ortb(cfg, auctionID, resolve, seats, Answered, None, seats, None, None)])
    case VastAnswer(bid, url, events, world) => s.(jobs := s.jobs + [Vast(bid, url, events, world, None)])
    case StoreBilling(j) =>
      if AtPhase(s, j, Notified) && s.jobs[j].win.Some? then
        var job := s.jobs[j].(phase := Stored);
        if BillingUrl(job) == "" then s.(jobs := s.jobs[j := job])
        else State(B.Next(s.beacons, B.Store(KeyOf(job), BillingUrl(job))),
                   s.jobs[j := job.(entry := Some(s.beacons.stored))], s.log + [j])
      else s
    case BuildVast(j) =>
      if j < |s.jobs| && s.jobs[j].Vast? && s.jobs[j].served.None? then
        var job := s.jobs[j];
        s.(jobs := s.jobs[j := job.(served := Some(V.BuildVASTResponse(job.bid, job.impressionURL, job.events, job.world)))])
      else s
    case Beacon(step) => if step.Store? then s else s.(beacons := B.Next(s.beacons, step))
    case _ => if AtPhase(s, a.job, PhaseFor(a)) then s.(jobs := s.jobs[a.job := Local(s.jobs[a.job], a)]) else s
  }

  function Init(clock: int): State {
    State(B.Init(clock), [], [])
  }

  ghost function Run(clock: int, actions: seq<Action>): State {
    if actions == [] then Init(clock) else Next(Run(clock, actions[..|actions| - 1]), actions[|actions| - 1])
  }

  // ---- beacons see a run of their own machine

  lemma {:induction false} BeaconsRun(clock: int, actions: seq<Action>) returns (steps: seq<B.Action>)
    ensures Run(clock, actions).beacons == B.Run(B.Init(clock), steps)
  {
    hide B.Next, Local;
    if actions == [] {
      steps := [];
    } else {
      var front, a := actions[..|actions| - 1], actions[|actions| - 1];
      steps := BeaconsRun(clock, front);
      var s := Run(clock, front);
      var more := OwnStep(s, a);
      if more != [] {
        B.RunConcat(B.Init(clock), steps, more);
        B.RunOne(s.beacons, more[0]);
        assert more == [more[0]];
        steps := steps + more;
      }
    }
  }

  /** The step of the beacon machine in an action. */
  ghost function OwnStep(s: State, a: Action): (r: seq<B.Action>)
    ensures |r| <= 1 && Next(s, a).beacons == if r == [] then s.beacons else B.Next(s.beacons, r[0])
  {
    if a.Beacon? && !a.step.Store? then [a.step]
    else if a.StoreBilling? && AtPhase(s, a.job, Notified) && s.jobs[a.job].win.Some? && BillingUrl(s.jobs[a.job]) != ""
    then [B.Store(KeyOf(s.jobs[a.job]), BillingUrl(s.jobs[a.job]))]
    else []
  }

  // ---- what each handler keeps

  /** The recorded winner is the winning bid of the response. */
  ghost predicate Won(job: Job)
    requires job.Ortb? && job.win.Some?
  {
    exists w :: Wins(Candidates(job.asked, |job.asked|), job.cfg, w)
                && Candidates(job.asked, |job.asked|)[w] == job.win.value
  }

  ghost predicate OrtbOk(job: Job)
    requires job.Ortb?
  {
    && (Order(job.phase) >= 1 && job.phase != Sent ==> job.win.Some?)
    && (job.win.Some? ==> Won(job) && Order(job.phase) >= 1)
    && (job.win.None? ==> job.seats == job.asked && job.fired.None? && job.entry.None?)
    && (job.win.Some? ==>
          && job.fired == (if Order(job.phase) >= 2 then NonEmpty(if HasMarkup(job) then WinUrl(job) else "") else None)
          && (job.entry.Some? <==> Order(job.phase) >= 3 && BillingUrl(job) != "")
          && (if Order(job.phase) >= 4 then Rewritten(job.asked, job.seats, job.win.value) else job.seats == job.asked))
  }

  ghost predicate JobOk(job: Job) {
    match job
    case Ortb(_, _, _, _, _, _, _, _, _) => OrtbOk(job)
    case Vast(bid, url, events, world, served) =>
      served.Some? ==> served.value == V.BuildVASTResponse(bid, url, events, world)
  }

  lemma RewriteAllRewrites(seats: seq<SeatBid>, win: Candidate)
    ensures Rewritten(seats, RewriteAll(seats, win), win)
  {
    hide Rewrite;
  }

  lemma LocalOk(job: Job, a: Action)
    requires job.Ortb? && OrtbOk(job) && job.phase == PhaseFor(a) && !a.StoreBilling?
    ensures Local(job, a).Ortb? && OrtbOk(Local(job, a))
    ensures Local(job, a).entry == job.entry && (job.win.Some? ==> Local(job, a).win == job.win)
    ensures var j' := Local(job, a);
            j'.auctionID == job.auctionID && j'.resolve == job.resolve && j'.asked == job.asked && j'.cfg == job.cfg
  {
    hide Wins, Eligible, Candidates, Rewritten, RewriteAll, NormalizeAdM;
    if a.Blank? && job.win.Some? {
      RewriteAllRewrites(job.asked, job.win.value);
    }
  }

  // ---- where a stored notice comes from

  /** Billing notice `e`, stored under `key` with `url`, is that of an ORTB response's winning bid. */
  ghost predicate Source(jobs: seq<Job>, log: seq<nat>, e: nat, key: ImpressionKey, url: string) {
    && e < |log| && log[e] < |jobs|
    && var job := jobs[log[e]];
       job.Ortb? && job.win.Some? && job.entry == Some(e) && KeyOf(job) == key && BillingUrl(job) == url
  }

  /** Notices and the jobs that stored them correspond one to one. */
  ghost predicate LogOk(jobs: seq<Job>, log: seq<nat>) {
    && (forall e :: 0 <= e < |log| ==> log[e] < |jobs| && jobs[log[e]].Ortb? && jobs[log[e]].entry == Some(e))
    && (forall j :: 0 <= j < |jobs| && jobs[j].Ortb? && jobs[j].entry.Some? ==>
          jobs[j].entry.value < |log| && log[jobs[j].entry.value] == j)
  }

  ghost predicate NoticesOk(b: B.State, jobs: seq<Job>, log: seq<nat>) {
    && |log| == b.stored
    && (forall k :: k in b.pending ==> Source(jobs, log, b.pending[k].entry, k, b.pending[k].url))
    && (forall i :: 0 <= i < |b.billed| ==>
          Source(jobs, log, b.billed[i].pending.entry, b.billed[i].key, b.billed[i].pending.url))
  }

  ghost predicate JobsOk(jobs: seq<Job>) {
    forall j :: 0 <= j < |jobs| ==> JobOk(jobs[j])
  }

  ghost predicate Inv(s: State) {
    JobsOk(s.jobs) && LogOk(s.jobs, s.log) && NoticesOk(s.beacons, s.jobs, s.log)
  }

  /** No step but a store adds a notice, and a bill is of a pending one. */
  lemma BeaconStep(b: B.State, a: B.Action)
    requires !a.Store?
    ensures var b' := B.Next(b, a);
            && b'.stored == b.stored
            && (forall k :: k in b'.pending ==> k in b.pending && b'.pending[k] == b.pending[k])
            && (forall i :: 0 <= i < |b'.billed| ==>
                  || (i < |b.billed| && b'.billed[i] == b.billed[i])
                  || (b'.billed[i].key in b.pending && b'.billed[i].pending == b.pending[b'.billed[i].key]))
  {
  }

  lemma StoreStep(b: B.State, key: ImpressionKey, url: string)
    ensures var b' := B.Next(b, B.Store(key, url));
            && b'.stored == b.stored + 1 && b'.billed == b.billed
            && (forall k :: k in b'.pending ==> k == key || (k in b.pending && b'.pending[k] == b.pending[k]))
            && key in b'.pending && b'.pending[key].entry == b.stored && b'.pending[key].url == url
  {
  }

  lemma BeaconNotices(s: State, a: B.Action)
    requires NoticesOk(s.beacons, s.jobs, s.log) && !a.Store?
    ensures NoticesOk(B.Next(s.beacons, a), s.jobs, s.log)
  {
    hide Source, B.Next;
    BeaconStep(s.beacons, a);
  }

  /** A job that keeps its winner, its key and its notice. */
  ghost predicate SameNotice(job: Job, job': Job) {
    && (job.Ortb? <==> job'.Ortb?)
    && (job.Ortb? ==>
          && job'.entry == job.entry && job'.auctionID == job.auctionID && job'.resolve == job.resolve
          && (job.win.Some? ==> job'.win == job.win))
  }

  lemma JobReplaced(s: State, j: nat, job: Job)
    requires j < |s.jobs| && SameNotice(s.jobs[j], job)
    requires LogOk(s.jobs, s.log) && NoticesOk(s.beacons, s.jobs, s.log)
    ensures LogOk(s.jobs[j := job], s.log) && NoticesOk(s.beacons, s.jobs[j := job], s.log)
  {
    forall e: nat, key, url | Source(s.jobs, s.log, e, key, url)
      ensures Source(s.jobs[j := job], s.log, e, key, url)
    {
    }
  }

  lemma JobAdded(s: State, job: Job)
    requires (job.Ortb? ==> job.entry.None?) && LogOk(s.jobs, s.log) && NoticesOk(s.beacons, s.jobs, s.log)
    ensures LogOk(s.jobs + [job], s.log) && NoticesOk(s.beacons, s.jobs + [job], s.log)
  {
    forall e: nat, key, url | Source(s.jobs, s.log, e, key, url)
      ensures Source(s.jobs + [job], s.log, e, key, url)
    {
    }
  }

  lemma JobStored(s: State, j: nat, job: Job)
    requires LogOk(s.jobs, s.log) && NoticesOk(s.beacons, s.jobs, s.log)
    requires j < |s.jobs| && s.jobs[j].Ortb? && s.jobs[j].win.Some? && s.jobs[j].entry.None?
    requires job == s.jobs[j].(phase := Stored, entry := Some(s.beacons.stored)) && BillingUrl(job) != ""
    ensures LogOk(s.jobs[j := job], s.log + [j])
    ensures NoticesOk(B.Next(s.beacons, B.Store(KeyOf(job), BillingUrl(job))), s.jobs[j := job], s.log + [j])
  {
    hide B.Next;
    var jobs, log := s.jobs[j := job], s.log + [j];
    StoreStep(s.beacons, KeyOf(job), BillingUrl(job));
    forall e: nat, key, url | Source(s.jobs, s.log, e, key, url)
      ensures Source(jobs, log, e, key, url)
    {
    }
    assert Source(jobs, log, s.beacons.stored, KeyOf(job), BillingUrl(job));
  }

  lemma StoredOk(job: Job, entry: Option<nat>)
    requires job.Ortb? && OrtbOk(job) && job.phase == Notified && job.win.Some?
    requires entry.Some? <==> BillingUrl(job) != ""
    ensures job.entry.None? && OrtbOk(job.(phase := Stored, entry := entry))
  {
    hide Wins, Candidates, Rewritten, NormalizeAdM;
  }

  lemma NextInv(s: State, a: Action)
    requires Inv(s)
    ensures Inv(Next(s, a))
  {
    hide LogOk, NoticesOk, OrtbOk, B.Next, V.BuildVASTResponse, Local;
    match a
    case OrtbAnswer(cfg, auctionID, resolve, seats) =>
      var job := Ortb(cfg, auctionID, resolve, seats, Answered, None, seats, None, None);
      FreshOk(job);
      JobAdded(s, job);
    case VastAnswer(bid, url, events, world) => JobAdded(s, Vast(bid, url, events, world, None));
    case StoreBilling(j) =>
      if AtPhase(s, j, Notified) && s.jobs[j].win.Some? {
        assert JobOk(s.jobs[j]);
        if BillingUrl(s.jobs[j]) == "" {
          StoredOk(s.jobs[j], None);
          JobReplaced(s, j, s.jobs[j].(phase := Stored, entry := None));
        } else {
          StoredOk(s.jobs[j], Some(s.beacons.stored));
          JobStored(s, j, s.jobs[j].(phase := Stored, entry := Some(s.beacons.stored)));
        }
      }
    case BuildVast(j) =>
      if Next(s, a) != s {
        JobReplaced(s, j, Next(s, a).jobs[j]);
      }
    case Beacon(step) =>
      if !step.Store? {
        BeaconNotices(s, step);
      }
    case _ =>
      if AtPhase(s, a.job, PhaseFor(a)) {
        assert JobOk(s.jobs[a.job]);
        LocalOk(s.jobs[a.job], a);
        JobReplaced(s, a.job, Local(s.jobs[a.job], a));
      }
  }

  lemma FreshOk(job: Job)
    requires job.Ortb? && job.phase == Answered && job.win.None? && job.seats == job.asked && job.fired.None? && job.entry.None?
    ensures OrtbOk(job)
  {
  }

  lemma {:induction false} RunInv(clock: int, actions: seq<Action>)
    ensures Inv(Run(clock, actions))
  {
    hide Next;
    if actions == [] {
      InitInv(clock);
    } else {
      RunInv(clock, actions[..|actions| - 1]);
      NextInv(Run(clock, actions[..|actions| - 1]), actions[|actions| - 1]);
    }
  }

  lemma InitInv(clock: int)
    ensures Inv(Init(clock))
  {
  }

  // ---- one channel per notice

  /**
   * Every billing notice the server holds, has fired or has dropped was stored by exactly one ORTB
   * response and by no VAST answer; a pending or fired one is that of its winning bid.
   */
  lemma BillingSource(clock: int, actions: seq<Action>, e: nat)
    requires e < Run(clock, actions).beacons.stored
    ensures var s := Run(clock, actions);
            && e < |s.log| && s.log[e] < |s.jobs|
            && (forall j :: 0 <= j < |s.jobs| ==> (s.jobs[j].Ortb? && s.jobs[j].entry == Some(e) <==> j == s.log[e]))
            && var job := s.jobs[s.log[e]];
               && job.Ortb? && job.win.Some? && Won(job) && BillingUrl(job) != ""
               && (forall k :: k in s.beacons.pending && s.beacons.pending[k].entry == e ==>
                     && k.auctionID == job.auctionID && k.bidID == job.win.value.bid.id
                     && s.beacons.pending[k].url == job.resolve(job.win.value.bid.burl))
               && (forall i :: 0 <= i < |s.beacons.billed| && s.beacons.billed[i].pending.entry == e ==>
                     && s.beacons.billed[i].key.auctionID == job.auctionID && s.beacons.billed[i].key.bidID == job.win.value.bid.id
                     && s.beacons.billed[i].pending.url == job.resolve(job.win.value.bid.burl))
  {
    hide Run, Won;
    RunInv(clock, actions);
    var s := Run(clock, actions);
    assert JobOk(s.jobs[s.log[e]]);
  }

  /** Bid `bi` of seat `si` of the response as it came is not the one taken for the winner. */
  predicate Other(job: Job, si: nat, bi: nat)
    requires job.Ortb? && job.win.Some? && si < |job.asked| && bi < |job.asked[si].bids|
  {
    !Matches(job.asked[si].bids[bi], job.asked[si].seat, job.win.value)
  }

  /** A bid hands out `url`: one of its notice fields stands for it, or its markup holds it. */
  ghost predicate HandsOut(b: Bid, field: string, resolve: string -> string, url: string) {
    (field != "" && resolve(field) == url) || Contains(b.adm, url)
  }

  /** Some bid of the response that goes out hands out `url` as a billing URL or in its markup. */
  ghost predicate CarriesBilling(job: Job, url: string)
    requires job.Ortb?
  {
    exists si: nat, bi: nat :: si < |job.seats| && bi < |job.seats[si].bids|
                    && HandsOut(job.seats[si].bids[bi], job.seats[si].bids[bi].burl, job.resolve, url)
  }

  ghost predicate CarriesWin(job: Job, url: string)
    requires job.Ortb?
  {
    exists si: nat, bi: nat :: si < |job.seats| && bi < |job.seats[si].bids|
                    && HandsOut(job.seats[si].bids[bi], job.seats[si].bids[bi].nurl, job.resolve, url)
  }

  /** The bid as it came, with placeholder markup taken for none. */
  function Normal(b: Bid): Bid {
    b.(adm := NormalizeAdM(b.adm))
  }

  /** A bid that is not taken for the winner handed it out when the response came ... */
  ghost predicate OtherCarriesBilling(job: Job, url: string)
    requires job.Ortb? && job.win.Some?
  {
    exists si: nat, bi: nat :: si < |job.asked| && bi < |job.asked[si].bids| && Other(job, si, bi)
                    && HandsOut(Normal(job.asked[si].bids[bi]), job.asked[si].bids[bi].burl, job.resolve, url)
  }

  ghost predicate OtherCarriesWin(job: Job, url: string)
    requires job.Ortb? && job.win.Some?
  {
    exists si: nat, bi: nat :: si < |job.asked| && bi < |job.asked[si].bids| && Other(job, si, bi)
                    && HandsOut(Normal(job.asked[si].bids[bi]), job.asked[si].bids[bi].nurl, job.resolve, url)
  }

  /** ... or the markup of one that is holds it. */
  ghost predicate MarkupHolds(job: Job, url: string)
    requires job.Ortb? && job.win.Some?
  {
    exists si: nat, bi: nat :: si < |job.asked| && bi < |job.asked[si].bids| && !Other(job, si, bi)
                    && Contains(Normal(job.asked[si].bids[bi]).adm, url)
  }

  lemma SentCarriesBilling(job: Job, url: string)
    requires job.Ortb? && job.win.Some? && Rewritten(job.asked, job.seats, job.win.value)
    ensures CarriesBilling(job, url) <==> OtherCarriesBilling(job, url) || MarkupHolds(job, url)
  {
    hide NormalizeAdM, Rewrite, Matches, Contains;
    if CarriesBilling(job, url) {
      var si: nat, bi: nat :| si < |job.seats| && bi < |job.seats[si].bids|
                      && HandsOut(job.seats[si].bids[bi], job.seats[si].bids[bi].burl, job.resolve, url);
      RewrittenBids(job.asked, job.seats, job.win.value, si, bi);
      assert Other(job, si, bi) || !Other(job, si, bi);
    }
    if OtherCarriesBilling(job, url) {
      var si: nat, bi: nat :| si < |job.asked| && bi < |job.asked[si].bids| && Other(job, si, bi)
                      && HandsOut(Normal(job.asked[si].bids[bi]), job.asked[si].bids[bi].burl, job.resolve, url);
      RewrittenBids(job.asked, job.seats, job.win.value, si, bi);
    }
    if MarkupHolds(job, url) {
      var si: nat, bi: nat :| si < |job.asked| && bi < |job.asked[si].bids| && !Other(job, si, bi)
                      && Contains(Normal(job.asked[si].bids[bi]).adm, url);
      RewrittenBids(job.asked, job.seats, job.win.value, si, bi);
    }
  }

  lemma SentCarriesWin(job: Job, url: string)
    requires job.Ortb? && job.win.Some? && HasMarkup(job) && Rewritten(job.asked, job.seats, job.win.value)
    ensures CarriesWin(job, url) <==> OtherCarriesWin(job, url) || MarkupHolds(job, url)
  {
    hide NormalizeAdM, Rewrite, Matches, Contains;
    if CarriesWin(job, url) {
      var si: nat, bi: nat :| si < |job.seats| && bi < |job.seats[si].bids|
                      && HandsOut(job.seats[si].bids[bi], job.seats[si].bids[bi].nurl, job.resolve, url);
      RewrittenBids(job.asked, job.seats, job.win.value, si, bi);
      assert Other(job, si, bi) || !Other(job, si, bi);
    }
    if OtherCarriesWin(job, url) {
      var si: nat, bi: nat :| si < |job.asked| && bi < |job.asked[si].bids| && Other(job, si, bi)
                      && HandsOut(Normal(job.asked[si].bids[bi]), job.asked[si].bids[bi].nurl, job.resolve, url);
      RewrittenBids(job.asked, job.seats, job.win.value, si, bi);
    }
    if MarkupHolds(job, url) {
      var si: nat, bi: nat :| si < |job.asked| && bi < |job.asked[si].bids| && !Other(job, si, bi)
                      && Contains(Normal(job.asked[si].bids[bi]).adm, url);
      RewrittenBids(job.asked, job.seats, job.win.value, si, bi);
    }
  }

  lemma WonMatches(job: Job)
    requires job.Ortb? && job.win.Some? && Won(job)
    ensures var win := job.win.value;
            && win.si < |job.asked| && win.bi < |job.asked[win.si].bids|
            && job.asked[win.si].bids[win.bi] == win.bid && Matches(win.bid, job.asked[win.si].seat, win)
            && (NormalizeAdM(win.bid.adm) == "" ==> win.bid.nurl != "")
  {
    var w :| Wins(Candidates(job.asked, |job.asked|), job.cfg, w) && Candidates(job.asked, |job.asked|)[w] == job.win.value;
    WinnerMatches(job.asked, job.cfg, w);
  }

  /**
   * Billing, in every run: of a response that was sent the winning bid carries no billing URL, the
   * server holds or held one exactly if the bid had one, and any URL is left in the response, as a
   * billing URL or in markup, if and only if a bid that is not the winner brought it or the winner's
   * own markup holds it.
   */
  lemma SingleBillingChannel(clock: int, actions: seq<Action>, j: nat)
    requires j < |Run(clock, actions).jobs|
    requires var job := Run(clock, actions).jobs[j];
             job.Ortb? && job.phase == Sent && job.win.Some?
    ensures var job := Run(clock, actions).jobs[j];
            var win := job.win.value;
            && win.si < |job.seats| && win.bi < |job.seats[win.si].bids|
            && job.seats[win.si].bids[win.bi].id == win.bid.id && job.seats[win.si].bids[win.bi].burl == ""
            && (job.entry.Some? <==> BillingUrl(job) != "")
            && (forall url :: CarriesBilling(job, url) <==> OtherCarriesBilling(job, url) || MarkupHolds(job, url))
  {
    hide Run, Won, Matches, NormalizeAdM, Rewrite, CarriesBilling, OtherCarriesBilling, MarkupHolds;
    RunInv(clock, actions);
    var job := Run(clock, actions).jobs[j];
    assert JobOk(job);
    WonMatches(job);
    RewrittenBids(job.asked, job.seats, job.win.value, job.win.value.si, job.win.value.bi);
    forall url
      ensures CarriesBilling(job, url) <==> OtherCarriesBilling(job, url) || MarkupHolds(job, url)
    {
      SentCarriesBilling(job, url);
    }
  }

  /**
   * Win notices, in every run: the winning bid goes out with its win URL exactly if it has no
   * markup, and the server has then not fired it; with markup the server has fired it, unless it
   * stands for nothing, and any URL is then in the response, as a win URL or in markup, if and only
   * if another bid brought it or the winner's own markup holds it.
   */
  lemma SingleWinChannel(clock: int, actions: seq<Action>, j: nat)
    requires j < |Run(clock, actions).jobs|
    requires var job := Run(clock, actions).jobs[j];
             job.Ortb? && job.phase == Sent && job.win.Some?
    ensures var job := Run(clock, actions).jobs[j];
            var win := job.win.value;
            && win.si < |job.seats| && win.bi < |job.seats[win.si].bids|
            && var out := job.seats[win.si].bids[win.bi];
               && (out.nurl != "" <==> !HasMarkup(job)) && (out.nurl != "" ==> out.nurl == win.bid.nurl)
               && (job.fired.Some? <==> HasMarkup(job) && WinUrl(job) != "")
               && (job.fired.Some? ==> job.fired.value == WinUrl(job))
               && (job.fired.Some? ==>
                     out.nurl == "" && forall url :: CarriesWin(job, url) <==> OtherCarriesWin(job, url) || MarkupHolds(job, url))
  {
    hide Run, Won, Matches, NormalizeAdM, Rewrite, CarriesWin, OtherCarriesWin, MarkupHolds;
    RunInv(clock, actions);
    var job := Run(clock, actions).jobs[j];
    assert JobOk(job);
    WonMatches(job);
    RewrittenBids(job.asked, job.seats, job.win.value, job.win.value.si, job.win.value.bi);
    if HasMarkup(job) {
      forall url
        ensures CarriesWin(job, url) <==> OtherCarriesWin(job, url) || MarkupHolds(job, url)
      {
        SentCarriesWin(job, url);
      }
    }
  }

  /**
   * VAST answers, in every run: a fired win URL is also handed to the player exactly when the bid
   * leaks it, and no billing notice of the server comes from the answer.
   */
  lemma VastChannels(clock: int, actions: seq<Action>, j: nat)
    requires j < |Run(clock, actions).jobs| && Run(clock, actions).jobs[j].Vast? && Run(clock, actions).jobs[j].served.Some?
    requires var job := Run(clock, actions).jobs[j];
             V.PlainInputs(job.bid, job.impressionURL, job.events, job.world) && '<' !in job.world.resolve(job.bid.nurl)
    ensures var s := Run(clock, actions);
            var job := s.jobs[j];
            var served, nurl := job.served.value, job.world.resolve(job.bid.nurl);
            && (served.fired.Some? && V.Exposes(served.answer, served.fired.value) <==>
                  && job.bid.adm != "" && nurl != "" && !V.Refused(job.bid, job.world)
                  && V.Leaks(job.bid, job.impressionURL, job.events, job.world, nurl))
            && j !in s.log
  {
    hide Run, V.BuildVASTResponse, V.PlainInputs, V.Exposes, V.Leaks, V.Refused;
    RunInv(clock, actions);
    var s := Run(clock, actions);
    var job := s.jobs[j];
    assert JobOk(job);
    V.FiredAndExposedExactly(job.bid, job.impressionURL, job.events, job.world);
  }

  /**
   * A stored notice fires at most once, released by a handler that read the clock before its expiry;
   * whoever else works at the same time.
   */
  lemma BilledOnce(clock: int, actions: seq<Action>, i: nat)
    requires i < |Run(clock, actions).beacons.billed|
    ensures var b := Run(clock, actions).beacons;
            && b.billed[i].at < b.billed[i].pending.expires && b.billed[i].at <= b.billed[i].fired
            && !B.IsPending(b, b.billed[i].pending.entry)
            && forall k :: 0 <= k < |b.billed| && k != i ==> b.billed[k].pending.entry != b.billed[i].pending.entry
  {
    hide Run, B.Run;
    var steps := BeaconsRun(clock, actions);
    B.BillIsSound(clock, steps, i);
    forall k | 0 <= k < |Run(clock, actions).beacons.billed| && k != i
      ensures Run(clock, actions).beacons.billed[k].pending.entry != Run(clock, actions).beacons.billed[i].pending.entry
    {
      B.BillsAreSpaced(clock, steps, i, k);
    }
  }

  // ---- a response with two bids that share a billing URL

  lemma Then(s: State, actions: seq<Action>, a: Action) returns (s': State, actions': seq<Action>)
    requires s == Run(0, actions)
    ensures s' == Next(s, a) == Run(0, actions') && actions' == actions + [a]
  {
    s', actions' := Next(s, a), actions + [a];
    assert actions'[..|actions|] == actions;
  }

  /** Left alone, a response with an eligible bid is handled and sent. */
  lemma ResponseGoesOut(cfg: Config, auctionID: string, resolve: string -> string, seats: seq<SeatBid>, w: nat)
    returns (actions: seq<Action>)
    requires Wins(Candidates(seats, |seats|), cfg, w)
    ensures var s := Run(0, actions);
            && |s.jobs| == 1 && s.jobs[0].Ortb? && s.jobs[0].phase == Sent && s.jobs[0].asked == seats
            && s.jobs[0].resolve == resolve && s.jobs[0].win == Some(Candidates(seats, |seats|)[w])
  {
    hide Run, Wins, Candidates, B.Next, NormalizeAdM, RewriteAll;
    actions := [];
    var s := Init(0);
    RunNothing();
    s, actions := Then(s, actions, OrtbAnswer(cfg, auctionID, resolve, seats));
    s, actions := Then(s, actions, Pick(0, w));
    s, actions := HandledAndSent(s, actions);
  }

  lemma HandledAndSent(s: State, actions: seq<Action>) returns (s': State, actions': seq<Action>)
    requires s == Run(0, actions) && |s.jobs| == 1 && AtPhase(s, 0, Picked) && s.jobs[0].win.Some?
    ensures s' == Run(0, actions') && |s'.jobs| == 1 && AtPhase(s', 0, Sent)
    ensures var job, job' := s.jobs[0], s'.jobs[0];
            job'.asked == job.asked && job'.resolve == job.resolve && job'.win == job.win
  {
    hide Run, B.Next, NormalizeAdM, RewriteAll;
    s', actions' := Then(s, actions, FireWin(0));
    s', actions' := Then(s', actions', StoreBilling(0));
    s', actions' := Then(s', actions', Blank(0));
    s', actions' := Then(s', actions', Send(0));
  }

  lemma RunNothing()
    ensures Run(0, []) == Init(0)
  {
  }

  /** It happens: the second bid brings the winner's billing URL, which is then stored and sent as well. */
  lemma SharedUrlGoesOut() returns (actions: seq<Action>)
    ensures var s := Run(0, actions);
            && |s.jobs| == 1 && s.jobs[0].Ortb? && s.jobs[0].win.Some? && s.jobs[0].phase == Sent
            && s.jobs[0].entry.Some? && OtherCarriesBilling(s.jobs[0], BillingUrl(s.jobs[0]))
            && CarriesBilling(s.jobs[0], BillingUrl(s.jobs[0]))
  {
    hide Run, Contains;
    var win, other := Bid("1", "", "n", "u", 2.0), Bid("2", "", "n", "u", 1.0);
    var seats := [SeatBid("s", [win, other])];
    var cfg := Config(0.0, 0.0, false, map[]);
    TwoBids(seats, win, other, cfg);
    actions := ResponseGoesOut(cfg, "a", u => u, seats, 0);
    SingleBillingChannel(0, actions, 0);
    var job := Run(0, actions).jobs[0];
    assert job.asked[0].bids[1] == other && Other(job, 0, 1);
    assert HandsOut(Normal(other), other.burl, job.resolve, "u");
  }

  lemma TwoBids(seats: seq<SeatBid>, win: Bid, other: Bid, cfg: Config)
    requires seats == [SeatBid("s", [win, other])] && win.nurl != "" && other.nurl != "" && win.price > other.price > 0.0
    requires cfg == Config(0.0, 0.0, false, map[])
    ensures Wins(Candidates(seats, 1), cfg, 0) && Candidates(seats, 1)[0] == Candidate(0, 0, "s", win)
  {
    assert Candidates(seats, 0) == [];
    assert Candidates(seats, 1) == SeatCandidates(seats, 0, 2);
  }

  /** It happens: the only bid's markup is its win and billing URL, which is fired, stored and sent. */
  lemma OwnMarkupGoesOut() returns (actions: seq<Action>)
    ensures var s := Run(0, actions);
            && |s.jobs| == 1 && s.jobs[0].Ortb? && s.jobs[0].win.Some? && s.jobs[0].phase == Sent
            && |s.jobs[0].asked| == 1 && |s.jobs[0].asked[0].bids| == 1
            && s.jobs[0].fired == Some("http://n") && s.jobs[0].entry.Some? && BillingUrl(s.jobs[0]) == "http://n"
            && CarriesWin(s.jobs[0], "http://n") && CarriesBilling(s.jobs[0], "http://n")
  {
    hide Run, Contains, Wins, Candidates, NormalizeAdM, CarriesWin, CarriesBilling, OtherCarriesWin, OtherCarriesBilling, MarkupHolds;
    var u := "http://n";
    var bid := Bid("1", u, u, u, 1.0);
    var seats := [SeatBid("s", [bid])];
    var cfg := Config(0.0, 0.0, false, map[]);
    V.UriIsUri();
    OneBid(seats, bid, cfg);
    actions := ResponseGoesOut(cfg, "a", x => x, seats, 0);
    var job := Run(0, actions).jobs[0];
    SingleBillingChannel(0, actions, 0);
    SingleWinChannel(0, actions, 0);
    OwnMarkup(job, bid);
  }

  lemma OwnMarkup(job: Job, bid: Bid)
    requires job.Ortb? && job.asked == [SeatBid("s", [bid])] && job.win == Some(Candidate(0, 0, "s", bid))
    requires NormalizeAdM(bid.adm) == bid.adm
    ensures MarkupHolds(job, bid.adm)
  {
    hide Contains, NormalizeAdM;
    assert job.asked[0].bids[0] == bid && !Other(job, 0, 0);
    HoldsItself(bid.adm);
  }

  lemma OneBid(seats: seq<SeatBid>, bid: Bid, cfg: Config)
    requires seats == [SeatBid("s", [bid])] && bid.nurl != "" && bid.price > 0.0 && cfg == Config(0.0, 0.0, false, map[])
    ensures Wins(Candidates(seats, 1), cfg, 0) && Candidates(seats, 1)[0] == Candidate(0, 0, "s", bid)
  {
    assert Candidates(seats, 0) == [];
    assert Candidates(seats, 1) == SeatCandidates(seats, 0, 1);
  }

  lemma HoldsItself(u: string)
    ensures Contains(u, u)
  {
    assert At(u, u, 0);
  }
}
