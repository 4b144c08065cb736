/**
  Whole runs of edits and approvals of one brief, whatever throws in each: what is
  ever saved, and what has gone out by the time it is.
 */
module BriefRuns {
  import opened Wrappers
  import opened Recipients
  import opened Pictures
  import opened BriefApproval

  function Handle(h: Hub, req: Request, lower: string -> string): Hub {
    match req
    case Edit(patch, fault) => AfterEdit(h, patch, fault, lower).0
    case Approve(approval, fault) => AfterApprove(h, approval, fault).0
  }

  function Run(h: Hub, reqs: seq<Request>, lower: string -> string): Hub
    decreases |reqs|
  {
    if reqs == [] then h else Handle(Run(h, reqs[..|reqs| - 1], lower), reqs[|reqs| - 1], lower)
  }

  // ----- What is saved -----

  /** Pending with nothing delivered, or published and finalized; never approved. */
  predicate Coherent(r: Record) {
    && !r.publication.Approved?
    && (r.status.Finalized? <==> r.publication.Published?)
    && (r.approvedAt.Some? <==> r.publication.Published?)
    && (r.publishedAt.Some? <==> r.publication.Published?)
    && (r.publication.Pending? ==> r.receipt == NO_RECEIPT && r.deliveredAt.None?)
  }

  lemma HandleKeepsCoherent(h: Hub, req: Request, lower: string -> string)
    requires Coherent(h.record)
    ensures Coherent(Handle(h, req, lower).record)
  {
    hide Normalized, Sanitized, PatchedImage, ReceiptOf, Trail;
  }

  /** Whatever throws in whichever request, the saved brief is never left approved. */
  lemma {:induction false} RunsStayCoherent(h: Hub, reqs: seq<Request>, lower: string -> string)
    requires Coherent(h.record)
    ensures Coherent(Run(h, reqs, lower).record)
    decreases |reqs|
  {
    hide Coherent, Handle;
    if reqs != [] {
      RunsStayCoherent(h, reqs[..|reqs| - 1], lower);
      HandleKeepsCoherent(Run(h, reqs[..|reqs| - 1], lower), reqs[|reqs| - 1], lower);
    }
  }

  /** Once published, no request changes the brief or lets anything more out. */
  lemma {:induction false} PublishedIsAbsorbing(h: Hub, reqs: seq<Request>, lower: string -> string)
    requires h.record.publication.Published?
    ensures Run(h, reqs, lower) == h
    decreases |reqs|
  {
    if reqs != [] {
      hide Trail, PublishedRecord, Normalized, Sanitized;
      PublishedIsAbsorbing(h, reqs[..|reqs| - 1], lower);
    }
  }

  // ----- What has gone out -----

  /** The step an effect belongs to. */
  function Kind(e: Effect): nat {
    match e
    case Mailed(_) => 1
    case OutcomeRecorded => 2
    case ResultPublished(_) => 3
    case SourceFinalised => 4
    case Saved(p) => if p.Published? then 5 else 0
    case AppliedOnApproval => 6
    case Updated => 0
  }

  function Count(effects: seq<Effect>, k: nat): nat {
    if effects == [] then 0 else Count(effects[..|effects| - 1], k) + if Kind(effects[|effects| - 1]) == k then 1 else 0
  }

  lemma {:induction false} CountOfBoth(a: seq<Effect>, b: seq<Effect>, k: nat)
    ensures Count(a + b, k) == Count(a, k) + Count(b, k)
    decreases |b|
  {
    if b == [] {
      assert a + b == a;
    } else {
      assert (a + b)[..|a + b| - 1] == a + b[..|b| - 1];
      CountOfBoth(a, b[..|b| - 1], k);
    }
  }

  /** An approval of a pending brief. */
  predicate Attempt(h: Hub, req: Request) {
    req.Approve? && h.record.publication.Pending?
  }

  predicate Past(h: Hub, req: Request, k: nat) {
    && Attempt(h, req) && k < StopsAt(h.record, req.approval, req.fault)
    && (k == 1 ==> To(h.record, req.approval) != [])
  }

  /** An attempt that let step `k` out and then threw before the brief was saved. */
  predicate Wasted(h: Hub, req: Request, k: nat) {
    Past(h, req, k) && StopsAt(h.record, req.approval, req.fault) <= 5
  }

  function WastedIn(h: Hub, reqs: seq<Request>, lower: string -> string, k: nat): nat
    decreases |reqs|
  {
    if reqs == [] then 0
    else
      var before := reqs[..|reqs| - 1];
      WastedIn(h, before, lower, k) + if Wasted(Run(h, before, lower), reqs[|reqs| - 1], k) then 1 else 0
  }

  lemma CountOfOne(e: Effect, k: nat)
    ensures Count([e], k) == if Kind(e) == k then 1 else 0
    ensures Count([], k) == 0
  {
    assert [e][..0] == [];
  }

  lemma CountOfEffect(r: Record, a: Approval, step: nat, k: nat)
    requires 1 <= k <= 6
    ensures Count(EffectOf(r, a, step), k) == if step == k && (k == 1 ==> To(r, a) != []) then 1 else 0
  {
    hide Count;
    if EffectOf(r, a, step) == [] {
      CountOfOne(Updated, k);
    } else {
      CountOfOne(EffectOf(r, a, step)[0], k);
      assert EffectOf(r, a, step) == [EffectOf(r, a, step)[0]];
    }
  }

  lemma {:induction false} CountOfTrail(r: Record, a: Approval, stop: nat, k: nat)
    requires 1 <= k <= 6
    ensures Count(Trail(r, a, stop), k) == if k < stop && (k == 1 ==> To(r, a) != []) then 1 else 0
    decreases stop
  {
    hide EffectOf, To;
    if stop == 0 {
      CountOfOne(Updated, k);
    } else {
      CountOfTrail(r, a, stop - 1, k);
      CountOfBoth(Trail(r, a, stop - 1), EffectOf(r, a, stop - 1), k);
      CountOfEffect(r, a, stop - 1, k);
    }
  }

  lemma EditCounts(h: Hub, p: Patch, fault: Fault, lower: string -> string, k: nat)
    requires 1 <= k <= 6
    ensures Count(AfterEdit(h, p, fault, lower).0.effects, k) == Count(h.effects, k)
  {
    hide Edited, Count;
    CountOfOne(Updated, k);
    CountOfOne(Saved(Pending), k);
    assert [Updated, Saved(Pending)] == [Updated] + [Saved(Pending)];
    CountOfBoth([Updated], [Saved(Pending)], k);
    CountOfBoth(h.effects, [Updated, Saved(Pending)], k);
    CountOfBoth(h.effects, [Updated], k);
  }

  lemma HandleCounts(h: Hub, req: Request, lower: string -> string, k: nat)
    requires 1 <= k <= 6
    ensures Count(Handle(h, req, lower).effects, k) == Count(h.effects, k) + if Past(h, req, k) then 1 else 0
  {
    hide AfterEdit, Trail, PublishedRecord, Count, StopsAt, To;
    match req
    case Approve(a, fault) =>
      CountOfTrail(h.record, a, StopsAt(h.record, a, fault), k);
      CountOfBoth(h.effects, Trail(h.record, a, StopsAt(h.record, a, fault)), k);
    case Edit(p, fault) =>
      EditCounts(h, p, fault, lower, k);
  }

  /** A request publishes exactly when it is an attempt that nothing stops before the save. */
  lemma PublishesIff(h: Hub, req: Request, lower: string -> string)
    requires h.record.publication.Pending?
    ensures Handle(h, req, lower).record.publication.Published? <==>
            Attempt(h, req) && StopsAt(h.record, req.approval, req.fault) > 5
    ensures !Handle(h, req, lower).record.publication.Approved?
  {
    hide Trail, Normalized, Sanitized, PatchedImage, Delivered;
  }

  /** Whom the attempt that published was to mail; no one when none published. */
  function PublishedTo(h: Hub, reqs: seq<Request>, lower: string -> string): seq<string>
    decreases |reqs|
  {
    if reqs == [] then []
    else
      var before, req := reqs[..|reqs| - 1], reqs[|reqs| - 1];
      var was := Run(h, before, lower);
      if Attempt(was, req) && StopsAt(was.record, req.approval, req.fault) > 5 then To(was.record, req.approval)
      else PublishedTo(h, before, lower)
  }

  /** What the publication itself let out of step `k`: once, the mail only if there was someone to mail. */
  function OnceOut(h: Hub, reqs: seq<Request>, lower: string -> string, k: nat): nat {
    if Run(h, reqs, lower).record.publication.Published? && (k == 1 ==> PublishedTo(h, reqs, lower) != []) then 1 else 0
  }

  /**
    The mail, the events and the finalisation of the source all come before the save. Each has gone out once
    for the publication and once more for every attempt that threw after it; the save happened once. So
    "published" was announced exactly once if and only if no attempt threw after announcing it.
   */
  lemma {:induction false} EffectsOfARun(h: Hub, reqs: seq<Request>, lower: string -> string, k: nat)
    requires Coherent(h.record) && h.record.publication.Pending? && 1 <= k <= 5
    ensures Count(Run(h, reqs, lower).effects, k) == Count(h.effects, k) + WastedIn(h, reqs, lower, k) + OnceOut(h, reqs, lower, k)
    ensures k == 5 ==> WastedIn(h, reqs, lower, 5) == 0
    decreases |reqs|
  {
    if reqs != [] {
      hide Handle, Coherent, Count, StopsAt, To;
      var before, req := reqs[..|reqs| - 1], reqs[|reqs| - 1];
      EffectsOfARun(h, before, lower, k);
      var was := Run(h, before, lower);
      HandleCounts(was, req, lower, k);
      RunsStayCoherent(h, before, lower);
      if was.record.publication.Pending? {
        PublishesIff(was, req, lower);
      } else {
        NeverApproved(was.record);
        PublishedIsAbsorbing(was, [req], lower);
        assert [req][..0] == [] && Run(was, [], lower) == was;
      }
    }
  }

  lemma NeverApproved(r: Record)
    requires Coherent(r)
    ensures r.publication.Pending? || r.publication.Published?
  {
  }

  /** A save that fails after everything has gone out: the next approval mails and announces it again. */
  lemma FailedSaveAnnouncesTwice(content: Content, official: string, lower: string -> string)
    ensures var a := Approval([official], None, 0, 0, 0);
            var reqs := [Approve(a, AtSave), Approve(a, AtNothing)];
            var out := Run(Hub(Created(content), []), reqs, lower);
            out.record.publication.Published? && Count(out.effects, 1) == 2 && Count(out.effects, 3) == 2 && Count(out.effects, 5) == 1
  {
    var a := Approval([official], None, 0, 0, 0);
    var h := Hub(Created(content), []);
    var one, two := [Approve(a, AtSave)], [Approve(a, AtSave), Approve(a, AtNothing)];
    assert two[..1] == one && one[..0] == [];
    assert Run(h, [], lower) == h;
    var first := Run(h, one, lower);
    assert first == Handle(h, Approve(a, AtSave), lower);
    assert first.record == h.record;
    assert Run(h, two, lower) == Handle(first, Approve(a, AtNothing), lower);
    EffectsOfARun(h, two, lower, 1);
    EffectsOfARun(h, two, lower, 3);
    EffectsOfARun(h, two, lower, 5);
    assert WastedIn(h, [], lower, 3) == 0 && WastedIn(h, one, lower, 3) == 1;
    assert WastedIn(h, [], lower, 1) == 0 && WastedIn(h, one, lower, 1) == 1;
  }

  // ----- The one attempt that published -----

  /**
    A published brief was published by one attempt: everything it let out, in order and the source last
    before the save, ends the trace, and the row is the brief it found with its stamps and its receipt.
   */
  lemma {:induction false} PublishedByOne(h: Hub, reqs: seq<Request>, lower: string -> string) returns (i: nat)
    requires Coherent(h.record) && h.record.publication.Pending?
    requires Run(h, reqs, lower).record.publication.Published?
    ensures i < |reqs| && Attempt(Run(h, reqs[..i], lower), reqs[i])
    ensures var was, out := Run(h, reqs[..i], lower), Run(h, reqs, lower);
            var stop := StopsAt(was.record, reqs[i].approval, reqs[i].fault);
            && stop > 5
            && out.effects == was.effects + Trail(was.record, reqs[i].approval, stop)
            && out.record == PublishedRecord(was.record, reqs[i].approval)
    decreases |reqs|
  {
    hide Trail, PublishedRecord, StopsAt;
    var last := |reqs| - 1;
    var before := reqs[..last];
    var was := Run(h, before, lower);
    RunsStayCoherent(h, before, lower);
    if was.record.publication.Pending? {
      PublishesIff(was, reqs[last], lower);
      i := last;
    } else {
      PublishedIsAbsorbing(was, [reqs[last]], lower);
      assert [reqs[last]][..0] == [] && Run(was, [], lower) == was;
      i := PublishedByOne(h, before, lower);
      assert before[..i] == reqs[..i];
    }
  }

  /** That attempt's trace: mail if anyone was to get it, the two events, the source, the save, what was waiting. */
  lemma TrailInOrder(r: Record, a: Approval)
    ensures var to := if r.recipients.Some? then Emails(r.recipients.value) else a.fallback;
            var mail := if to != [] then [Mailed(to)] else [];
            && Trail(r, a, 6) == mail + [OutcomeRecorded, ResultPublished(r.content), SourceFinalised, Saved(Published)]
            && Trail(r, a, 7) == Trail(r, a, 6) + [AppliedOnApproval]
  {
    TrailsBefore(r, a);
  }

  /** What an approval lets out before it stops at each of its callbacks, and whether the brief is saved by then. */
  lemma EachThrowStops(h: Hub, a: Approval, fault: Fault)
    requires h.record.publication.Pending?
    ensures var (after, r) := AfterApprove(h, a, fault);
            var to := if h.record.recipients.Some? then Emails(h.record.recipients.value) else a.fallback;
            var mail := if to != [] then [Mailed(to)] else [];
            var all := mail + [OutcomeRecorded, ResultPublished(h.record.content), SourceFinalised, Saved(Published)];
            && (r.Ok? <==> fault.AtNothing? || fault.AtUpdate? || (fault.AtMail? && to == []))
            && (r.Err? ==> r == Err(Thrown(fault)))
            && (after.record.publication.Published? <==> r.Ok? || fault.AtApply?)
            && (!after.record.publication.Published? ==> after.record == h.record)
            && after.effects == h.effects +
               match fault
               case AtMail => if to != [] then [] else all + [AppliedOnApproval]
               case AtOutcome => mail
               case AtResult => mail + [OutcomeRecorded]
               case AtFinalise => mail + [OutcomeRecorded, ResultPublished(h.record.content)]
               case AtSave => mail + [OutcomeRecorded, ResultPublished(h.record.content), SourceFinalised]
               case AtApply => all
               case _ => all + [AppliedOnApproval]
  {
    hide Delivered, Emails, EffectOf;
    TrailInOrder(h.record, a);
    TrailsBefore(h.record, a);
    hide Trail;
  }

  lemma TrailsBefore(r: Record, a: Approval)
    ensures var to := if r.recipients.Some? then Emails(r.recipients.value) else a.fallback;
            var mail := if to != [] then [Mailed(to)] else [];
            && Trail(r, a, 1) == [] && Trail(r, a, 2) == mail && Trail(r, a, 3) == mail + [OutcomeRecorded]
            && Trail(r, a, 4) == mail + [OutcomeRecorded, ResultPublished(r.content)]
            && Trail(r, a, 5) == mail + [OutcomeRecorded, ResultPublished(r.content), SourceFinalised]
  {
    assert Trail(r, a, 1) == [];
    assert Trail(r, a, 2) == EffectOf(r, a, 1);
    assert Trail(r, a, 3) == EffectOf(r, a, 1) + [OutcomeRecorded];
    assert Trail(r, a, 4) == EffectOf(r, a, 1) + [OutcomeRecorded, ResultPublished(r.content)];
  }

  // ----- The receipt and the words -----

  /** The receipt names exactly the selected recipients who were sent it, and those held back. */
  ghost predicate ReceiptIsTrue(r: Record) {
    && (r.recipients.Some? ==>
          forall name :: name in r.receipt.deliveredLabels <==>
                         exists who :: who in r.recipients.value && who.email in r.receipt.deliveredTo && NameOf(who) == name)
    && (r.recipients.Some? ==>
          forall name :: name in r.receipt.heldLabels <==>
                         exists who :: who in r.recipients.value && WasHeld(r.receipt.heldBack, who.email) && NameOf(who) == name)
    && (r.recipients.None? ==> r.receipt.deliveredLabels == [] && r.receipt.heldLabels == [])
  }

  lemma NoReceiptIsTrue(r: Record)
    requires r.receipt == NO_RECEIPT
    ensures ReceiptIsTrue(r)
  {
  }

  lemma DeliveredIsTrue(r: Record, sent: seq<string>, held: seq<Held>)
    requires r.receipt == ReceiptOf(r.recipients, sent, held)
    ensures ReceiptIsTrue(r)
  {
    if r.recipients.Some? {
      var rs := r.recipients.value;
      forall name
        ensures name in r.receipt.deliveredLabels <==> exists who :: who in rs && who.email in sent && NameOf(who) == name
        ensures name in r.receipt.heldLabels <==>
                exists who :: who in rs && WasHeld(held, who.email) && NameOf(who) == name
      {
        SentIff(rs, sent, held, name);
      }
    }
  }

  lemma {:induction false} RunsKeepReceiptsTrue(h: Hub, reqs: seq<Request>, lower: string -> string)
    requires Coherent(h.record) && h.record.publication.Pending?
    ensures ReceiptIsTrue(Run(h, reqs, lower).record)
  {
    hide ReceiptIsTrue, Run, ReceiptOf;
    var r := Run(h, reqs, lower).record;
    RunsStayCoherent(h, reqs, lower);
    if r.publication.Pending? {
      NoReceiptIsTrue(r);
    } else {
      var i := PublishedByOne(h, reqs, lower);
      var was, a := Run(h, reqs[..i], lower).record, reqs[i].approval;
      RunsStayCoherent(h, reqs[..i], lower);
      if To(was, a) == [] {
        NoReceiptIsTrue(r);
      } else {
        DeliveredMatches(was, a);
        DeliveredIsTrue(r, Sent(was, a), HeldBack(a));
      }
    }
  }

  /**
    The saved receipt is the mailer's own account: sent to those it says it
    sent, whatever was asked of it, and held back those it says it held back;
    with no account, sent to everyone it was handed.  It is dated exactly when
    someone was sent it, and with no one to mail there is none.
   */
  ghost predicate AsReported(r: Record, a: Approval, selected: Option<seq<Recipient>>) {
    var mailed := if selected.Some? then seq(|selected.value|, i requires 0 <= i < |selected.value| => selected.value[i].email) else a.fallback;
    && (mailed == [] ==> r.receipt == NO_RECEIPT && r.deliveredAt.None?)
    && (mailed != [] && a.report.Some? ==>
          && r.receipt.deliveredTo == a.report.value.sent && r.receipt.heldBack == a.report.value.heldBack
          && r.deliveredAt == if a.report.value.sent == [] then None else Some(a.deliveredAt))
    && (mailed != [] && a.report.None? ==>
          r.receipt.deliveredTo == mailed && r.receipt.heldBack == [] && r.deliveredAt == Some(a.deliveredAt))
  }

  /** So it is after the one request that publishes a brief. */
  lemma PublishedAsReported(h: Hub, a: Approval, fault: Fault)
    requires Coherent(h.record) && h.record.publication.Pending?
    requires AfterApprove(h, a, fault).0.record.publication.Published?
    ensures AsReported(AfterApprove(h, a, fault).0.record, a, h.record.recipients)
    ensures var r := AfterApprove(h, a, fault).0.record;
            && r.approvedAt == Some(a.approvedAt) && r.publishedAt == Some(a.publishedAt)
            && r.content == h.record.content && r.recipients == h.record.recipients
  {
    hide Trail, StopsAt;
    EmailsAre(h.record.recipients);
    if To(h.record, a) != [] {
      DeliveredMatches(h.record, a);
    }
  }

  /** And over any run: the receipt of a published brief is the account of the attempt that published it. */
  lemma RunsKeepTheAccount(h: Hub, reqs: seq<Request>, lower: string -> string) returns (i: nat)
    requires Coherent(h.record) && h.record.publication.Pending?
    requires Run(h, reqs, lower).record.publication.Published?
    ensures i < |reqs| && Attempt(Run(h, reqs[..i], lower), reqs[i])
    ensures AsReported(Run(h, reqs, lower).record, reqs[i].approval, Run(h, reqs[..i], lower).record.recipients)
  {
    hide AsReported, Run, Trail, PublishedRecord, StopsAt;
    i := PublishedByOne(h, reqs, lower);
    var was, req := Run(h, reqs[..i], lower), reqs[i];
    RunsStayCoherent(h, reqs[..i], lower);
    PublishedStatus(was.record, req.approval);
    PublishedAsReported(was, req.approval, req.fault);
  }

  lemma EmailsAre(selected: Option<seq<Recipient>>)
    ensures selected.Some? ==> Emails(selected.value) == seq(|selected.value|, i requires 0 <= i < |selected.value| => selected.value[i].email)
  {
  }

  lemma PublishedStatus(r: Record, a: Approval)
    ensures PublishedRecord(r, a).publication.Published?
  {
  }

  /** With no receipt before, the delivery's receipt is all there is. */
  lemma DeliveredMatches(r: Record, a: Approval)
    requires r.receipt == NO_RECEIPT
    ensures Delivered(r.receipt, r.recipients, Sent(r, a), HeldBack(a)) == ReceiptOf(r.recipients, Sent(r, a), HeldBack(a))
  {
  }

  /** Comments cleaned, recipients normalised, the picture accepted. */
  predicate Tidy(r: Record, lower: string -> string) {
    && Sanitized(r.content.comments) == r.content.comments
    && SanitizeImage(r.content.image) == Ok(r.content.image)
    && (r.recipients.Some? ==> Normalized(Some(EntriesOf(r.recipients.value)), lower) == Ok(r.recipients.value))
  }

  lemma EditedIsTidy(r: Record, p: Patch, lower: string -> string)
    requires Tidy(r, lower) && Edited(r, p, lower).Ok?
    ensures Tidy(Edited(r, p, lower).value, lower)
  {
    hide Sanitized, SanitizeImage, Normalized, EntriesOf;
    if p.comments.Some? {
      SanitizedIsClean(p.comments.value);
    }
    if p.imageUrl.Some? || p.imageAlt.Some? {
      SanitizeImageSettles(Picture(
                             if p.imageUrl.Some? then p.imageUrl.value else r.content.image.url,
                             if p.imageAlt.Some? then p.imageAlt.value else r.content.image.alt));
    }
    if p.recipients.Some? {
      NormalizeIdempotent(p.recipients.value, lower);
    }
  }

  lemma HandleKeepsTidy(h: Hub, req: Request, lower: string -> string)
    requires Tidy(h.record, lower)
    ensures Tidy(Handle(h, req, lower).record, lower)
  {
    hide Tidy, Edited, Trail, Delivered, StopsAt, To;
    match req
    case Edit(p, _) =>
      if Edited(h.record, p, lower).Ok? {
        EditedIsTidy(h.record, p, lower);
      }
    case Approve(a, _) =>
      TidyIsContent(h.record, PublishedRecord(h.record, a), lower);
  }

  /** Whatever is edited, what is stored stays tidy. */
  lemma {:induction false} RunsStayTidy(h: Hub, reqs: seq<Request>, lower: string -> string)
    requires Tidy(h.record, lower)
    ensures Tidy(Run(h, reqs, lower).record, lower)
    decreases |reqs|
  {
    hide Tidy, Handle;
    if reqs != [] {
      RunsStayTidy(h, reqs[..|reqs| - 1], lower);
      HandleKeepsTidy(Run(h, reqs[..|reqs| - 1], lower), reqs[|reqs| - 1], lower);
    }
  }

  lemma TidyIsContent(r: Record, s: Record, lower: string -> string)
    requires Tidy(r, lower) && s.content == r.content && s.recipients == r.recipients
    ensures Tidy(s, lower)
  {
  }

  /**
    An edit that is accepted leaves each field it gives as it was given, cleaned, and every other as it was; one
    that is refused, or whose announcement or save throws, leaves the brief as it was.
   */
  lemma EditTakes(h: Hub, p: Patch, fault: Fault, lower: string -> string)
    ensures var (after, r) := AfterEdit(h, p, fault, lower);
            var was, now := h.record, after.record;
            && (r.Err? ==> now == was && (after.effects == h.effects || after.effects == h.effects + [Updated]))
            && (r.Ok? ==>
                  && was.publication.Pending? && after.effects == h.effects + [Updated, Saved(Pending)]
                  && now.content.headline == Or(p.headline, was.content.headline)
                  && now.content.summary == Or(p.summary, was.content.summary)
                  && now.content.adminNotes == Or(p.adminNotes, was.content.adminNotes)
                  && now.content.comments == (if p.comments.Some? then Sanitized(p.comments.value) else was.content.comments)
                  && (p.imageUrl.None? && p.imageAlt.None? ==> now.content.image == was.content.image)
                  && (p.imageUrl.Some? || p.imageAlt.Some? ==>
                        Ok(now.content.image) ==
                        SanitizeImage(Picture(Or(p.imageUrl, was.content.image.url), Or(p.imageAlt, was.content.image.alt))))
                  && (p.recipients.None? ==> now.recipients == was.recipients)
                  && (p.recipients.Some? ==> now.recipients.Some? && Normalized(p.recipients.value, lower) == Ok(now.recipients.value))
                  && now == was.(content := now.content, recipients := now.recipients))
  {
    hide Sanitized, SanitizeImage, Normalized;
  }

  /** It is refused when the brief is no longer pending, for its list, or for its picture, in that order, and then nothing is announced. */
  lemma EditRefusedIff(h: Hub, p: Patch, fault: Fault, lower: string -> string)
    ensures var (after, r) := AfterEdit(h, p, fault, lower);
            var list := p.recipients.Some? && Normalized(p.recipients.value, lower).Err?;
            var picture := (p.imageUrl.Some? || p.imageAlt.Some?) &&
                           SanitizeImage(Picture(Or(p.imageUrl, h.record.content.image.url), Or(p.imageAlt, h.record.content.image.alt))).Err?;
            && (r.Err? && r.error.NotPending? <==> !h.record.publication.Pending?)
            && (r.Err? && r.error.BadRecipients? <==> h.record.publication.Pending? && list)
            && (r.Err? && r.error.BadPicture? <==> h.record.publication.Pending? && !list && picture)
            && (r.Err? && !r.error.Thrown? ==> after == h)
            && (r.Err? && r.error.Thrown? <==> h.record.publication.Pending? && !list && !picture && (fault.AtUpdate? || fault.AtSave?))
            && (r.Err? && r.error.Thrown? ==> after.effects == h.effects + if fault.AtSave? then [Updated] else [])
  {
    hide Sanitized, SanitizeImage, Normalized;
    assert h.effects + [] == h.effects;
  }

  /** Saving a tidy brief's own fields is accepted and changes nothing. */
  lemma SavingUntouchedChangesNothing(r: Record, lower: string -> string)
    requires Tidy(r, lower) && r.publication.Pending?
    ensures Edited(r, Patch(Some(r.content.comments), Some(r.content.adminNotes), Some(r.content.headline),
                            Some(r.content.summary), Some(r.content.image.url), Some(r.content.image.alt),
                            if r.recipients.Some? then Some(Some(EntriesOf(r.recipients.value))) else None), lower) == Ok(r)
  {
    hide Sanitized, SanitizeImage, Normalized, EntriesOf;
  }
}
