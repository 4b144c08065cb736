/**
  Who a brief goes to, and what its public receipt says about it
  (packages/civic.brief/service.ts).

  Lower-casing is left to the caller: every statement holds for whatever function
  `toLowerCase` is.
 */
module Recipients {
  import opened Wrappers
  import opened Text
  import opened KeepFirst

  const RECIPIENT_LABEL_MAX: nat := 120

  /** A row of the picker; a field that is missing or not text reads as "". */
  datatype Entry = Entry(email: string, words: string, group: string)

  datatype Recipient = Recipient(email: string, words: string, group: Option<string>)

  datatype RecipientError =
    | NotAList | InvalidEmail(email: string) | LabelRequired(email: string) | LabelTooLong | GroupTooLong

  /** `^[^\s@]+@[^\s@]+\.[^\s@]+$` */
  predicate EmailShape(s: string) {
    exists at, dot ::
      && 0 < at < |s| && at + 1 < dot < |s| - 1 && s[at] == '@' && s[dot] == '.'
      && forall k :: 0 <= k < |s| && k != at ==> s[k] != '@' && !IsSpace(s[k])
  }

  predicate Blank(e: Entry) {
    Trim(e.email) == "" && Trim(e.words) == ""
  }

  function ReadEntry(e: Entry): Result<Recipient, RecipientError> {
    var email, words, group := Trim(e.email), Trim(e.words), Trim(e.group);
    if !EmailShape(email) then Err(InvalidEmail(email))
    else if words == "" then Err(LabelRequired(email))
    else if Length(words) > RECIPIENT_LABEL_MAX then Err(LabelTooLong)
    else if Length(group) > RECIPIENT_LABEL_MAX then Err(GroupTooLong)
    else Ok(Recipient(email, words, if group == "" then None else Some(group)))
  }

  /** Every row but the blank ones, or the first bad one's error. */
  function Read(entries: seq<Entry>): Result<seq<Recipient>, RecipientError> {
    if entries == [] then Ok([])
    else
      var last := entries[|entries| - 1];
      var earlier :- Read(entries[..|entries| - 1]);
      if Blank(last) then Ok(earlier)
      else
        var r :- ReadEntry(last);
        Ok(earlier + [r])
  }

  function Address(lower: string -> string): Recipient -> Option<string> {
    (r: Recipient) => Some(lower(r.email))
  }

  function Normalized(raw: Option<seq<Entry>>, lower: string -> string): Result<seq<Recipient>, RecipientError> {
    if raw.None? then Err(NotAList)
    else
      var rs :- Read(raw.value);
      Ok(Firsts(rs, Address(lower)))
  }

  lemma {:induction false} ErrorSticks(entries: seq<Entry>, n: nat)
    requires n <= |entries| && Read(entries[..n]).Err?
    ensures Read(entries) == Read(entries[..n])
    decreases |entries|
  {
    if n == |entries| {
      assert entries[..n] == entries;
    } else {
      var init := entries[..|entries| - 1];
      assert init[..n] == entries[..n];
      ErrorSticks(init, n);
    }
  }

  /** One pass with the set of addresses seen. */
  method NormalizeRecipients(raw: Option<seq<Entry>>, lower: string -> string)
    returns (r: Result<seq<Recipient>, RecipientError>)
    ensures r == Normalized(raw, lower)
  {
    if raw.None? {
      return Err(NotAList);
    }
    var entries := raw.value;
    var seen: set<string> := {};
    var out: seq<Recipient> := [];
    ghost var read: seq<Recipient> := [];
    var i := 0;
    while i < |entries|
      invariant 0 <= i <= |entries|
      invariant Read(entries[..i]) == Ok(read)
      invariant out == Firsts(read, Address(lower)) && seen == Marks(read, Address(lower))
    {
      hide Firsts, Marks, EmailShape, Trim;
      assert entries[..i + 1][..i] == entries[..i];
      if !Blank(entries[i]) {
        var one := ReadEntry(entries[i]);
        if one.Err? {
          ErrorSticks(entries, i + 1);
          return Err(one.error);
        }
        FirstsStep(read, one.value, Address(lower));
        MarksOfMore(read, one.value, Address(lower));
        read := read + [one.value];
        var key := lower(one.value.email);
        if key !in seen {
          seen := seen + {key};
          out := out + [one.value];
        }
      }
      i := i + 1;
    }
    assert entries[..i] == entries;
    return Ok(out);
  }

  // ----- What a normalised list is -----

  predicate Bad(e: Entry) {
    !Blank(e) && ReadEntry(e).Err?
  }

  /** A list is refused exactly when some row is bad, with the first bad row's error. */
  lemma {:induction false} RefusedIff(entries: seq<Entry>)
    ensures Read(entries).Ok? <==> forall i :: 0 <= i < |entries| ==> !Bad(entries[i])
    ensures Read(entries).Err? ==>
              exists i :: 0 <= i < |entries| && Bad(entries[i]) && ReadEntry(entries[i]) == Err(Read(entries).error) &&
                          forall j :: 0 <= j < i ==> !Bad(entries[j])
  {
    hide ReadEntry, Blank;
    if entries != [] {
      var init := entries[..|entries| - 1];
      RefusedIff(init);
      if Read(init).Err? {
        var i :| 0 <= i < |init| && Bad(init[i]) && ReadEntry(init[i]) == Err(Read(init).error) &&
                 forall j :: 0 <= j < i ==> !Bad(init[j]);
        assert entries[i] == init[i] && forall j :: 0 <= j < i ==> entries[j] == init[j];
      } else {
        assert forall j :: 0 <= j < |init| ==> entries[j] == init[j];
      }
    }
  }

  /** One more row: skipped when it has neither address nor label, refused for what is wrong with it first, or read trimmed. */
  lemma RowRead(entries: seq<Entry>, e: Entry)
    requires Read(entries).Ok?
    ensures var email, words, group := Trim(e.email), Trim(e.words), Trim(e.group);
            Read(entries + [e]) ==
            if email == "" && words == "" then Read(entries)
            else if !EmailShape(email) then Err(InvalidEmail(email))
            else if words == "" then Err(LabelRequired(email))
            else if Length(words) > 120 then Err(LabelTooLong)
            else if Length(group) > 120 then Err(GroupTooLong)
            else Ok(Read(entries).value + [Recipient(email, words, if group == "" then None else Some(group))])
  {
    hide EmailShape, Trim, Length;
    assert (entries + [e])[..|entries|] == entries;
  }

  /** An address has a name, one at sign, a dot with something on either side of it after that, and no space. */
  lemma AddressShapes()
    ensures EmailShape("a@b.c") && EmailShape("a.b@c.d.e")
    ensures !EmailShape("a@b") && !EmailShape("@b.c") && !EmailShape("a@.c") && !EmailShape("a@b.") && !EmailShape("a@@b.c") && !EmailShape("a b@c.d")
  {
    ShapeAt("a@b.c", 1, 3);
    ShapeAt("a.b@c.d.e", 3, 5);
    TwoAtsAreNone("a@@b.c", 1, 2);
    SpaceIsNone("a b@c.d", 1);
  }

  lemma TwoAtsAreNone(s: string, i: nat, j: nat)
    requires i < j < |s| && s[i] == s[j] == '@'
    ensures !EmailShape(s)
  {
  }

  lemma SpaceIsNone(s: string, i: nat)
    requires i < |s| && IsSpace(s[i])
    ensures !EmailShape(s)
  {
  }

  lemma ShapeAt(s: string, at: nat, dot: nat)
    requires 0 < at < |s| && at + 1 < dot < |s| - 1 && s[at] == '@' && s[dot] == '.'
    requires forall k :: 0 <= k < |s| && k != at ==> 'a' <= s[k] <= 'z' || s[k] == '.'
    ensures EmailShape(s)
  {
  }

  /** A row as the picker shows a stored recipient. */
  function EntryOf(r: Recipient): Entry {
    Entry(r.email, r.words, if r.group.Some? then r.group.value else "")
  }

  function EntriesOf(rs: seq<Recipient>): seq<Entry> {
    seq(|rs|, i requires 0 <= i < |rs| => EntryOf(rs[i]))
  }

  /** A recipient that reads back as itself. */
  predicate Clean(r: Recipient) {
    !Blank(EntryOf(r)) && ReadEntry(EntryOf(r)) == Ok(r)
  }

  lemma ReadEntryIsClean(e: Entry)
    requires ReadEntry(e).Ok?
    ensures Clean(ReadEntry(e).value)
  {
    hide EmailShape, Trim, Length;
    TrimTwice(e.email);
    TrimTwice(e.words);
    TrimTwice(e.group);
    TrimTwice("");
  }

  lemma {:induction false} ReadIsClean(entries: seq<Entry>)
    requires Read(entries).Ok?
    ensures forall r :: r in Read(entries).value ==> Clean(r)
  {
    if entries != [] {
      hide ReadEntry, Blank, Clean;
      var last := entries[|entries| - 1];
      ReadIsClean(entries[..|entries| - 1]);
      if !Blank(last) {
        ReadEntryIsClean(last);
      }
    }
  }

  lemma {:induction false} CleanReadsBack(rs: seq<Recipient>)
    requires forall r :: r in rs ==> Clean(r)
    ensures Read(EntriesOf(rs)) == Ok(rs)
  {
    if rs != [] {
      hide ReadEntry, Blank, EntryOf;
      var last := |rs| - 1;
      var init := rs[..last];
      forall r | r in init
        ensures Clean(r)
      {
        assert r in rs;
      }
      CleanReadsBack(init);
      assert EntriesOf(rs)[..last] == EntriesOf(init);
      assert EntriesOf(rs)[last] == EntryOf(rs[last]);
      assert Clean(rs[last]) && init + [rs[last]] == rs;
    }
  }

  lemma StaysInside<T, K>(xs: seq<T>, mark: T -> Option<K>)
    ensures forall x :: x in Firsts(xs, mark) ==> x in xs
  {
    FirstsStand(xs, mark);
  }

  /** Saving the list that was read back changes nothing. */
  lemma NormalizeIdempotent(raw: Option<seq<Entry>>, lower: string -> string)
    requires Normalized(raw, lower).Ok?
    ensures Normalized(Some(EntriesOf(Normalized(raw, lower).value)), lower) == Normalized(raw, lower)
  {
    hide Read, Firsts, Clean, Unique;
    var rs := Read(raw.value).value;
    var out := Firsts(rs, Address(lower));
    ReadIsClean(raw.value);
    StaysInside(rs, Address(lower));
    CleanReadsBack(out);
    MarksKept(rs, Address(lower));
    UniqueStays(out, Address(lower));
  }

  /** No address twice ignoring case, and none lost. */
  lemma NormalizedIsUnique(entries: seq<Entry>, lower: string -> string)
    requires Read(entries).Ok?
    ensures var out := Normalized(Some(entries), lower).value;
            && (forall i, j :: 0 <= i < j < |out| ==> lower(out[i].email) != lower(out[j].email))
            && forall r :: r in Read(entries).value ==> exists o :: o in out && lower(o.email) == lower(r.email)
  {
    hide Read, Firsts;
    var rs, mark := Read(entries).value, Address(lower);
    var out := Firsts(rs, mark);
    MarksKept(rs, mark);
    forall i, j | 0 <= i < j < |out|
      ensures lower(out[i].email) != lower(out[j].email)
    {
      assert mark(out[i]) != mark(out[j]);
    }
    forall r | r in rs
      ensures exists o :: o in out && lower(o.email) == lower(r.email)
    {
      var i :| 0 <= i < |rs| && rs[i] == r;
      assert mark(rs[i]).value in Marks(rs, mark);
      var j :| 0 <= j < |out| && mark(out[j]).value == lower(r.email);
      assert out[j] in out;
    }
  }

  /** Each address as it was first typed, in that order. */
  lemma NormalizedKeepsFirsts(entries: seq<Entry>, lower: string -> string) returns (ps: seq<nat>)
    requires Read(entries).Ok?
    ensures |ps| == |Normalized(Some(entries), lower).value|
    ensures forall k, l :: 0 <= k < l < |ps| ==> ps[k] < ps[l]
    ensures forall k :: 0 <= k < |ps| ==>
              ps[k] < |Read(entries).value| && Normalized(Some(entries), lower).value[k] == Read(entries).value[ps[k]]
    ensures forall k, i :: 0 <= k < |ps| && 0 <= i < ps[k] ==>
              lower(Read(entries).value[i].email) != lower(Read(entries).value[ps[k]].email)
  {
    hide Read, Firsts;
    var rs, mark := Read(entries).value, Address(lower);
    PositionsAreFirsts(rs, mark);
    FirstsStand(rs, mark);
    ps := FirstPositions(rs, mark);
    forall k, i | 0 <= k < |ps| && 0 <= i < ps[k]
      ensures lower(rs[i].email) != lower(rs[ps[k]].email)
    {
      assert ps[k] in ps && IsFirst(rs, ps[k], mark);
      assert mark(rs[i]) != mark(rs[ps[k]]);
    }
  }

  // ----- The names on the public receipt -----

  function GroupOf(r: Recipient): Option<string> {
    if r.group.Some? && r.group.value != "" then r.group else None
  }

  /** The office a recipient is named by, or the recipient's own label. */
  function NameOf(r: Recipient): string {
    if GroupOf(r).Some? then GroupOf(r).value else r.words
  }

  function Names(rs: seq<Recipient>): seq<string> {
    seq(|rs|, i requires 0 <= i < |rs| => NameOf(rs[i]))
  }

  function Collapsed(rs: seq<Recipient>): seq<string> {
    Names(Firsts(rs, GroupOf))
  }

  lemma CollapsedStep(rs: seq<Recipient>, r: Recipient)
    ensures Collapsed(rs + [r]) ==
            if GroupOf(r).Some? && GroupOf(r).value in Marks(rs, GroupOf) then Collapsed(rs) else Collapsed(rs) + [NameOf(r)]
  {
    hide Firsts, Marks;
    FirstsStep(rs, r, GroupOf);
  }

  method CollapseRecipientLabels(rs: seq<Recipient>) returns (out: seq<string>)
    ensures out == Collapsed(rs)
  {
    out := [];
    var emitted: set<string> := {};
    var i := 0;
    while i < |rs|
      invariant 0 <= i <= |rs|
      invariant out == Collapsed(rs[..i]) && emitted == Marks(rs[..i], GroupOf)
    {
      hide Collapsed, Marks;
      assert rs[..i + 1] == rs[..i] + [rs[i]];
      CollapsedStep(rs[..i], rs[i]);
      MarksOfMore(rs[..i], rs[i], GroupOf);
      var group := GroupOf(rs[i]);
      if group.Some? {
        if group.value !in emitted {
          emitted := emitted + {group.value};
          out := out + [group.value];
        }
      } else {
        out := out + [rs[i].words];
      }
      i := i + 1;
    }
    assert rs[..i] == rs;
  }

  /** The receipt names exactly the offices and people on the list. */
  lemma NamedIff(rs: seq<Recipient>, name: string)
    ensures name in Collapsed(rs) <==> exists r :: r in rs && NameOf(r) == name
  {
    var kept := Firsts(rs, GroupOf);
    if name in Collapsed(rs) {
      var k :| 0 <= k < |kept| && NameOf(kept[k]) == name;
      StaysInside(rs, GroupOf);
      assert kept[k] in rs;
    }
    forall i | 0 <= i < |rs| && NameOf(rs[i]) == name
      ensures name in Collapsed(rs)
    {
      StillNamed(rs, i);
    }
  }

  lemma StillNamed(rs: seq<Recipient>, i: nat)
    requires i < |rs|
    ensures NameOf(rs[i]) in Collapsed(rs)
  {
    var kept := Firsts(rs, GroupOf);
    var g := GroupOf(rs[i]);
    if g.Some? {
      MarksKept(rs, GroupOf);
      assert g.value in Marks(rs, GroupOf);
      var k :| 0 <= k < |kept| && GroupOf(kept[k]) == g;
      assert Collapsed(rs)[k] == NameOf(rs[i]);
    } else {
      PositionsAreFirsts(rs, GroupOf);
      FirstsStand(rs, GroupOf);
      assert IsFirst(rs, i, GroupOf);
      var ps := FirstPositions(rs, GroupOf);
      var k :| 0 <= k < |ps| && ps[k] == i;
      assert Collapsed(rs)[k] == NameOf(rs[i]);
    }
  }

  /** A group stands once, where its first member stood; everyone else keeps their place. */
  lemma GroupStandsOnce(rs: seq<Recipient>) returns (ps: seq<nat>)
    ensures |Collapsed(rs)| == |ps|
    ensures forall k, l :: 0 <= k < l < |ps| ==> ps[k] < ps[l]
    ensures forall k :: 0 <= k < |ps| ==> ps[k] < |rs| && Collapsed(rs)[k] == NameOf(rs[ps[k]])
    ensures forall p: nat :: p < |rs| ==>
              (p in ps <==> GroupOf(rs[p]).None? || forall i :: 0 <= i < p ==> GroupOf(rs[i]) != GroupOf(rs[p]))
  {
    PositionsAreFirsts(rs, GroupOf);
    FirstsStand(rs, GroupOf);
    ps := FirstPositions(rs, GroupOf);
    forall p: nat | p < |rs|
      ensures p in ps <==> GroupOf(rs[p]).None? || forall i :: 0 <= i < p ==> GroupOf(rs[i]) != GroupOf(rs[p])
    {
      assert p in ps <==> IsFirst(rs, p, GroupOf);
    }
  }

  // ----- The delivery -----

  datatype Held = Held(email: string, reason: string)

  /** What the mail adapter reports; none when it says nothing, and then everyone was sent it. */
  datatype MailReport = MailReport(sent: seq<string>, heldBack: seq<Held>)

  datatype Receipt = Receipt(
    deliveredTo: seq<string>, deliveredLabels: seq<string>, heldBack: seq<Held>, heldLabels: seq<string>)

  function Emails(rs: seq<Recipient>): seq<string> {
    seq(|rs|, i requires 0 <= i < |rs| => rs[i].email)
  }

  function HeldEmails(held: seq<Held>): seq<string> {
    seq(|held|, i requires 0 <= i < |held| => held[i].email)
  }

  function Among(rs: seq<Recipient>, emails: seq<string>): (out: seq<Recipient>)
    ensures forall r :: r in out <==> r in rs && r.email in emails
  {
    if rs == [] then []
    else
      var r, out := rs[|rs| - 1], Among(rs[..|rs| - 1], emails);
      assert forall x :: x in rs <==> x in rs[..|rs| - 1] || x == r;
      if r.email in emails then out + [r] else out
  }

  function ReceiptOf(selected: Option<seq<Recipient>>, sent: seq<string>, held: seq<Held>): Receipt {
    var labels := (emails: seq<string>) => if selected.Some? then Collapsed(Among(selected.value, emails)) else [];
    Receipt(sent, labels(sent), held, if held == [] then [] else labels(HeldEmails(held)))
  }

  /** The addresses a brief goes to: the admin's selection, or the hub's list when none was ever made. */
  function AddressesOf(selected: Option<seq<Recipient>>, fallback: seq<string>): seq<string> {
    if selected.Some? then Emails(selected.value) else fallback
  }

  /** The mailer reported holding the address back. */
  predicate WasHeld(held: seq<Held>, email: string) {
    exists i :: 0 <= i < |held| && held[i].email == email
  }

  lemma HeldEmailsIff(held: seq<Held>, email: string)
    ensures email in HeldEmails(held) <==> WasHeld(held, email)
  {
    if i :| 0 <= i < |held| && held[i].email == email {
      assert HeldEmails(held)[i] == email;
    }
  }

  /** The receipt names as sent exactly those really sent it. */
  lemma SentIff(rs: seq<Recipient>, sent: seq<string>, held: seq<Held>, name: string)
    ensures name in ReceiptOf(Some(rs), sent, held).deliveredLabels <==>
            exists r :: r in rs && r.email in sent && NameOf(r) == name
    ensures name in ReceiptOf(Some(rs), sent, held).heldLabels <==>
            exists r :: r in rs && WasHeld(held, r.email) && NameOf(r) == name
  {
    hide WasHeld, HeldEmails;
    forall r | r in rs
      ensures r.email in HeldEmails(held) <==> WasHeld(held, r.email)
    {
      HeldEmailsIff(held, r.email);
    }
    NamedIff(Among(rs, sent), name);
    NamedIff(Among(rs, HeldEmails(held)), name);
    NoneHeld();
  }

  lemma NoneHeld()
    ensures HeldEmails([]) == []
  {
  }

  /** When the report accounts for every address, everyone selected is on the receipt, as sent or as held back. */
  lemma EveryoneIsOnTheReceipt(rs: seq<Recipient>, sent: seq<string>, held: seq<Held>, r: Recipient)
    requires forall i :: 0 <= i < |rs| ==> rs[i].email in sent || WasHeld(held, rs[i].email)
    requires r in rs
    ensures var receipt := ReceiptOf(Some(rs), sent, held);
            NameOf(r) in receipt.deliveredLabels || NameOf(r) in receipt.heldLabels
  {
    var i :| 0 <= i < |rs| && rs[i] == r;
    hide WasHeld;
    SentIff(rs, sent, held, NameOf(r));
  }

  // ----- Comments -----

  function Itself(s: string): Option<string> {
    Some(s)
  }

  function NonEmptyTrims(items: seq<string>): seq<string> {
    if items == [] then []
    else
      var s, earlier := Trim(items[|items| - 1]), NonEmptyTrims(items[..|items| - 1]);
      if s == "" then earlier else earlier + [s]
  }

  function Sanitized(items: seq<string>): seq<string> {
    Firsts(NonEmptyTrims(items), Itself)
  }

  method SanitizeList(items: seq<string>) returns (out: seq<string>)
    ensures out == Sanitized(items)
  {
    out := [];
    var seen: set<string> := {};
    var i := 0;
    while i < |items|
      invariant 0 <= i <= |items|
      invariant out == Sanitized(items[..i]) && seen == Marks(NonEmptyTrims(items[..i]), Itself)
    {
      hide Firsts, Marks;
      assert items[..i + 1][..i] == items[..i];
      var s := Trim(items[i]);
      if s != "" {
        FirstsStep(NonEmptyTrims(items[..i]), s, Itself);
        MarksOfMore(NonEmptyTrims(items[..i]), s, Itself);
        if s !in seen {
          seen := seen + {s};
          out := out + [s];
        }
      }
      i := i + 1;
    }
    assert items[..i] == items;
  }

  /** A cleaned list of comments is clean: trimmed, none empty, none twice, nothing left to do. */
  lemma SanitizedIsClean(items: seq<string>)
    ensures var out := Sanitized(items);
            && (forall s :: s in out ==> s != "" && Trim(s) == s)
            && (forall i, j :: 0 <= i < j < |out| ==> out[i] != out[j])
            && (forall i :: 0 <= i < |items| && Trim(items[i]) != "" ==> Trim(items[i]) in out)
            && Sanitized(out) == out
  {
    var texts := NonEmptyTrims(items);
    var out := Sanitized(items);
    TrimsAreTrimmed(items);
    StaysInside(texts, Itself);
    MarksKept(texts, Itself);
    NonEmptyTrimsOfTrimmed(out);
    UniqueStays(out, Itself);
    forall i | 0 <= i < |items| && Trim(items[i]) != ""
      ensures Trim(items[i]) in out
    {
      var j :| 0 <= j < |texts| && texts[j] == Trim(items[i]);
      assert Itself(texts[j]).value in Marks(texts, Itself);
    }
    forall i, j | 0 <= i < j < |out|
      ensures out[i] != out[j]
    {
      assert Itself(out[i]) != Itself(out[j]);
    }
  }

  lemma {:induction false} TrimsAreTrimmed(items: seq<string>)
    ensures forall s :: s in NonEmptyTrims(items) ==> s != "" && Trim(s) == s
    ensures forall i :: 0 <= i < |items| && Trim(items[i]) != "" ==> Trim(items[i]) in NonEmptyTrims(items)
  {
    if items != [] {
      hide Trim;
      var last := |items| - 1;
      var init := items[..last];
      TrimsAreTrimmed(init);
      TrimTwice(items[last]);
      forall i | 0 <= i < |items| && Trim(items[i]) != ""
        ensures Trim(items[i]) in NonEmptyTrims(items)
      {
        if i < last {
          assert init[i] == items[i];
        }
      }
    }
  }

  lemma {:induction false} NonEmptyTrimsOfTrimmed(items: seq<string>)
    requires forall s :: s in items ==> s != "" && Trim(s) == s
    ensures NonEmptyTrims(items) == items
  {
    if items != [] {
      hide Trim;
      var init := items[..|items| - 1];
      forall s | s in init
        ensures s != "" && Trim(s) == s
      {
        assert s in items;
      }
      NonEmptyTrimsOfTrimmed(init);
      assert items[|items| - 1] in items;
    }
  }
}
