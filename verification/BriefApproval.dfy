/**
  A brief's review and publication: the service's steps on the state it is handed
  (packages/civic.brief/service.ts) and the admin controller that loads a brief,
  runs them and only then saves it (packages/civic.brief/adminController.ts).

  Any callback may throw. What has gone out by then has gone out; what was only
  changed in memory is lost, because the next request loads the brief again.
 */
module BriefApproval {
  import opened Wrappers
  import opened Recipients
  import opened Pictures

  // ----- A brief -----

  datatype Publication = Pending | Approved | Published

  datatype RowStatus = Open | Finalized

  datatype Content = Content(headline: string, summary: string, comments: seq<string>, adminNotes: string, image: Picture)

  /** The process row: its status column and its state. */
  datatype Record = Record(
    status: RowStatus, publication: Publication, content: Content, recipients: Option<seq<Recipient>>,
    approvedAt: Option<int>, publishedAt: Option<int>, deliveredAt: Option<int>, receipt: Receipt)

  const NO_RECEIPT := Receipt([], [], [], [])

  /** A brief as it is made: pending, nothing delivered. */
  function Created(content: Content): Record {
    Record(Open, Pending, content, None, None, None, None, NO_RECEIPT)
  }

  // ----- What goes out -----

  datatype Effect =
    | Updated                           // civic.process.updated
    | Mailed(to: seq<string>)
    | OutcomeRecorded
    | ResultPublished(content: Content)
    | SourceFinalised
    | Saved(publication: Publication)
    | AppliedOnApproval

  /** The callback that throws in a request, if one does. */
  datatype Fault = AtNothing | AtUpdate | AtMail | AtOutcome | AtResult | AtFinalise | AtSave | AtApply

  datatype Error =
    | NotPending(publication: Publication)
    | BadRecipients(recipients: RecipientError)
    | BadPicture(picture: PictureError)
    | Thrown(fault: Fault)

  /** What the admin edits; a field left out is not touched. */
  datatype Patch = Patch(
    comments: Option<seq<string>>, adminNotes: Option<string>, headline: Option<string>, summary: Option<string>,
    imageUrl: Option<Option<string>>, imageAlt: Option<Option<string>>, recipients: Option<Option<seq<Entry>>>)

  /** What an approval is handed: the hub's list, the mailer's report and the clock at its three stamps. */
  datatype Approval = Approval(
    fallback: seq<string>, report: Option<MailReport>, approvedAt: int, deliveredAt: int, publishedAt: int)

  datatype Request = Edit(patch: Patch, fault: Fault) | Approve(approval: Approval, fault: Fault)

  datatype Hub = Hub(record: Record, effects: seq<Effect>)

  // ----- An edit -----

  function PatchedImage(image: Picture, p: Patch): Result<Picture, PictureError> {
    if p.imageUrl.None? && p.imageAlt.None? then Ok(image)
    else
      SanitizeImage(Picture(
                      if p.imageUrl.Some? then p.imageUrl.value else image.url,
                      if p.imageAlt.Some? then p.imageAlt.value else image.alt))
  }

  function Edited(r: Record, p: Patch, lower: string -> string): Result<Record, Error> {
    if r.publication != Pending then Err(NotPending(r.publication))
    else
      var list := if p.recipients.Some? then Normalized(p.recipients.value, lower) else Ok([]);
      if list.Err? then Err(BadRecipients(list.error))
      else
        var image := PatchedImage(r.content.image, p);
        if image.Err? then Err(BadPicture(image.error))
        else
          Ok(r.(recipients := if p.recipients.Some? then Some(list.value) else r.recipients,
                content := Content(
                  Or(p.headline, r.content.headline),
                  Or(p.summary, r.content.summary),
                  if p.comments.Some? then Sanitized(p.comments.value) else r.content.comments,
                  Or(p.adminNotes, r.content.adminNotes),
                  image.value)))
  }

  function AfterEdit(h: Hub, p: Patch, fault: Fault, lower: string -> string): (Hub, Result<(), Error>) {
    var edited := Edited(h.record, p, lower);
    if edited.Err? then (h, Err(edited.error))
    else if fault.AtUpdate? then (h, Err(Thrown(fault)))
    else if fault.AtSave? then (h.(effects := h.effects + [Updated]), Err(Thrown(fault)))
    else (Hub(edited.value, h.effects + [Updated, Saved(Pending)]), Ok(()))
  }

  // ----- An approval -----

  function To(r: Record, a: Approval): seq<string> {
    AddressesOf(r.recipients, a.fallback)
  }

  function Sent(r: Record, a: Approval): seq<string> {
    if a.report.Some? then a.report.value.sent else To(r, a)
  }

  function HeldBack(a: Approval): seq<Held> {
    if a.report.Some? then a.report.value.heldBack else []
  }

  /** The held-back half is only written when someone was held back. */
  function Delivered(was: Receipt, selected: Option<seq<Recipient>>, sent: seq<string>, held: seq<Held>): Receipt {
    var receipt := ReceiptOf(selected, sent, held);
    if held == [] then was.(deliveredTo := sent, deliveredLabels := receipt.deliveredLabels) else receipt
  }

  /** The row a publication leaves: stamped, finalized, with the receipt of its delivery if there was one. */
  function PublishedRecord(r: Record, a: Approval): Record {
    var published := r.(status := Finalized, publication := Published,
                        approvedAt := Some(a.approvedAt), publishedAt := Some(a.publishedAt));
    if To(r, a) == [] then published
    else
      published.(
        receipt := Delivered(r.receipt, r.recipients, Sent(r, a), HeldBack(a)),
        deliveredAt := if Sent(r, a) != [] then Some(a.deliveredAt) else None)
  }

  /** The steps in their order; the last of them have no number to stop at. */
  function StepOf(fault: Fault): nat {
    match fault
    case AtMail => 1
    case AtOutcome => 2
    case AtResult => 3
    case AtFinalise => 4
    case AtSave => 5
    case AtApply => 6
    case _ => 7
  }

  /** The step an approval stops at: a mailer that is never called cannot throw. */
  function StopsAt(r: Record, a: Approval, fault: Fault): nat {
    if fault.AtMail? && To(r, a) == [] then 7 else StepOf(fault)
  }

  function EffectOf(r: Record, a: Approval, step: nat): seq<Effect> {
    match step
    case 1 => if To(r, a) != [] then [Mailed(To(r, a))] else []
    case 2 => [OutcomeRecorded]
    case 3 => [ResultPublished(r.content)]
    case 4 => [SourceFinalised]
    case 5 => [Saved(Published)]
    case 6 => [AppliedOnApproval]
    case _ => []
  }

  /** Each step's effect, up to the one that throws. */
  function Trail(r: Record, a: Approval, stop: nat): seq<Effect> {
    if stop == 0 then [] else Trail(r, a, stop - 1) + EffectOf(r, a, stop - 1)
  }

  function AfterApprove(h: Hub, a: Approval, fault: Fault): (Hub, Result<(), Error>) {
    if h.record.publication != Pending then (h, Err(NotPending(h.record.publication)))
    else
      var stop := StopsAt(h.record, a, fault);
      (Hub(if stop > 5 then PublishedRecord(h.record, a) else h.record, h.effects + Trail(h.record, a, stop)),
       if stop == 7 then Ok(()) else Err(Thrown(fault)))
  }

  // ----- The state in memory -----

  class LoadedBrief {
    var status: RowStatus
    var publication: Publication
    var content: Content
    var recipients: Option<seq<Recipient>>
    var approvedAt: Option<int>
    var publishedAt: Option<int>
    var deliveredAt: Option<int>
    var receipt: Receipt

    constructor Load(r: Record)
      ensures Value() == r
    {
      status, publication, content, recipients := r.status, r.publication, r.content, r.recipients;
      approvedAt, publishedAt, deliveredAt, receipt := r.approvedAt, r.publishedAt, r.deliveredAt, r.receipt;
    }

    function Value(): Record
      reads this
    {
      Record(status, publication, content, recipients, approvedAt, publishedAt, deliveredAt, receipt)
    }

    method SetRecipients(raw: Option<seq<Entry>>, lower: string -> string) returns (r: Result<(), Error>)
      modifies this`recipients
      ensures r == if publication != Pending then Err(NotPending(publication))
                   else if Normalized(raw, lower).Err? then Err(BadRecipients(Normalized(raw, lower).error))
                   else Ok(())
      ensures recipients == if r.Ok? then Some(Normalized(raw, lower).value) else old(recipients)
    {
      if publication != Pending {
        return Err(NotPending(publication));
      }
      var list := NormalizeRecipients(raw, lower);
      if list.Err? {
        return Err(BadRecipients(list.error));
      }
      recipients := Some(list.value);
      return Ok(());
    }

    /** Who was really sent it, and who was held back. */
    method RecordDelivery(sent: seq<string>, held: seq<Held>, now: int)
      modifies this`receipt, this`deliveredAt
      ensures receipt == Delivered(old(receipt), recipients, sent, held)
      ensures deliveredAt == if sent != [] then Some(now) else None
    {
      receipt := receipt.(deliveredTo := sent, deliveredLabels := []);
      deliveredAt := if sent != [] then Some(now) else None;
      if recipients.Some? {
        var names := CollapseRecipientLabels(Among(recipients.value, sent));
        receipt := receipt.(deliveredLabels := names);
      }
      if held != [] {
        receipt := receipt.(heldBack := held, heldLabels := []);
        if recipients.Some? {
          var names := CollapseRecipientLabels(Among(recipients.value, HeldEmails(held)));
          receipt := receipt.(heldLabels := names);
        }
      }
    }

    /** The content changes as one, after every field has been checked. */
    method EditContent(p: Patch) returns (r: Result<(), Error>)
      modifies this`content
      ensures publication != Pending ==> r == Err(NotPending(publication))
      ensures publication == Pending ==>
                r == var image := PatchedImage(old(content).image, p);
                     if image.Err? then Err(BadPicture(image.error)) else Ok(())
      ensures r.Err? ==> content == old(content)
      ensures r.Ok? ==>
                content == Content(
                             Or(p.headline, old(content).headline),
                             Or(p.summary, old(content).summary),
                             if p.comments.Some? then Sanitized(p.comments.value) else old(content).comments,
                             Or(p.adminNotes, old(content).adminNotes),
                             PatchedImage(old(content).image, p).value)
    {
      if publication != Pending {
        return Err(NotPending(publication));
      }
      var next := content;
      if p.comments.Some? {
        var comments := SanitizeList(p.comments.value);
        next := next.(comments := comments);
      }
      if p.adminNotes.Some? {
        next := next.(adminNotes := p.adminNotes.value);
      }
      if p.headline.Some? {
        next := next.(headline := p.headline.value);
      }
      if p.summary.Some? {
        next := next.(summary := p.summary.value);
      }
      if p.imageUrl.Some? || p.imageAlt.Some? {
        var raw := next.image;
        if p.imageUrl.Some? {
          raw := raw.(url := p.imageUrl.value);
        }
        if p.imageAlt.Some? {
          raw := raw.(alt := p.imageAlt.value);
        }
        var image := SanitizeImage(raw);
        if image.Err? {
          return Err(BadPicture(image.error));
        }
        next := next.(image := image.value);
      }
      content := next;
      return Ok(());
    }
  }

  // ----- The requests -----

  class Briefs {
    var persisted: Record
    var effects: seq<Effect>
    const lower: string -> string

    constructor (content: Content, lower: string -> string)
      ensures Value() == Hub(Created(content), []) && this.lower == lower
    {
      persisted, effects, this.lower := Created(content), [], lower;
    }

    function Value(): Hub
      reads this
    {
      Hub(persisted, effects)
    }

    method HandlePatch(p: Patch, fault: Fault) returns (r: Result<(), Error>)
      modifies this
      ensures (Value(), r) == AfterEdit(old(Value()), p, fault, lower)
    {
      var state := new LoadedBrief.Load(persisted);
      if state.publication != Pending {
        return Err(NotPending(state.publication));
      }
      if p.recipients.Some? {
        var chosen := state.SetRecipients(p.recipients.value, lower);
        if chosen.Err? {
          return chosen;
        }
      }
      var edited := state.EditContent(p);
      if edited.Err? {
        return edited;
      }
      if fault.AtUpdate? {
        return Err(Thrown(fault));
      }
      effects := effects + [Updated];
      if fault.AtSave? {
        return Err(Thrown(fault));
      }
      persisted := state.Value();
      effects := effects + [Saved(state.publication)];
      assert effects == old(effects) + [Updated, Saved(Pending)];
      return Ok(());
    }

    /** Steps 1 to 3: approved, mailed, the delivery written down. */
    method ApproveAndDeliver(state: LoadedBrief, a: Approval, fault: Fault) returns (r: Result<(), Error>)
      requires state.publication == Pending
      modifies state, this`effects
      ensures var was := old(state.Value());
              && state.publication == Approved && state.content == was.content
              && (r.Err? <==> StopsAt(was, a, fault) == 1)
              && (r.Err? ==> r == Err(Thrown(fault)) && effects == old(effects))
              && (r.Ok? ==>
                    && effects == old(effects) + EffectOf(was, a, 1)
                    && state.Value().(status := Finalized, publication := Published, publishedAt := Some(a.publishedAt))
                       == PublishedRecord(was, a))
    {
      hide Delivered;
      var to := AddressesOf(state.recipients, a.fallback);
      state.publication := Approved;
      state.approvedAt := Some(a.approvedAt);
      if to != [] {
        if fault.AtMail? {
          return Err(Thrown(fault));
        }
        effects := effects + [Mailed(to)];
        state.RecordDelivery(if a.report.Some? then a.report.value.sent else to,
                             if a.report.Some? then a.report.value.heldBack else [], a.deliveredAt);
      }
      return Ok(());
    }

    /** The seven steps; a throw leaves the state in memory at the last good one. */
    method ApproveBrief(state: LoadedBrief, a: Approval, fault: Fault) returns (r: Result<(), Error>)
      modifies state, this`effects
      ensures old(state.publication) != Pending ==>
                r == Err(NotPending(state.publication)) && effects == old(effects) && state.Value() == old(state.Value())
      ensures old(state.publication) == Pending ==>
                var was := old(state.Value());
                var stop := StopsAt(was, a, fault);
                && effects == old(effects) + Trail(was, a, if stop < 5 then stop else 5)
                && (stop >= 5 ==> r.Ok? && state.Value().(status := Finalized) == PublishedRecord(was, a))
                && (stop < 5 ==> r == Err(Thrown(fault)) && state.publication == if stop <= 2 then Approved else Published)
    {
      hide PublishedRecord;
      if state.publication != Pending {
        return Err(NotPending(state.publication));
      }
      ghost var was := state.Value();
      var delivered := ApproveAndDeliver(state, a, fault);
      assert Trail(was, a, 1) == [];
      if delivered.Err? {
        return delivered;
      }
      assert effects == old(effects) + Trail(was, a, 2);
      if fault.AtOutcome? {
        return Err(Thrown(fault));
      }
      effects := effects + [OutcomeRecorded];
      state.publication := Published;
      state.publishedAt := Some(a.publishedAt);
      assert effects == old(effects) + Trail(was, a, 3);
      if fault.AtResult? {
        return Err(Thrown(fault));
      }
      effects := effects + [ResultPublished(state.content)];
      assert effects == old(effects) + Trail(was, a, 4);
      if fault.AtFinalise? {
        return Err(Thrown(fault));
      }
      effects := effects + [SourceFinalised];
      assert effects == old(effects) + Trail(was, a, 5);
      return Ok(());
    }

    method HandleApprove(a: Approval, fault: Fault) returns (r: Result<(), Error>)
      modifies this
      ensures (Value(), r) == AfterApprove(old(Value()), a, fault)
    {
      var state := new LoadedBrief.Load(persisted);
      if state.publication != Pending {
        return Err(NotPending(state.publication));
      }
      var approved := ApproveBrief(state, a, fault);
      if approved.Err? {
        return approved;
      }
      state.status := Finalized;
      if fault.AtSave? {
        return Err(Thrown(fault));
      }
      persisted := state.Value();
      effects := effects + [Saved(state.publication)];
      assert effects == old(effects) + Trail(old(persisted), a, 6);
      if fault.AtApply? {
        return Err(Thrown(fault));
      }
      effects := effects + [AppliedOnApproval];
      assert effects == old(effects) + Trail(old(persisted), a, 7);
      return Ok(());
    }
  }
}
