/** The lead pipeline of `src/pages/Leads.tsx`: four status columns, the buttons a
    card offers to move a lead forward or back, the delete guard, the WhatsApp
    phone clean-up and the local list update after a delete. */
module Leads {
  import opened Wrappers
  import opened Seqs
  import opened Text
  import opened Records

  /** `STATUS_KEYS`: the column order, the key order of `STATUS_MAP`. */
  function StatusKeys(): (r: seq<LeadStatus>)
    ensures |r| == 4 && Distinct(r)
    ensures r[0] == New && r[1] == Contacted && r[2] == Sold && r[3] == Discarded
  {
    [New, Contacted, Sold, Discarded]
  }

  /** Every status has a column. */
  lemma EveryStatusHasColumn(s: LeadStatus)
    ensures s in StatusKeys()
  {
    match s
    case New => assert StatusKeys()[0] == s;
    case Contacted => assert StatusKeys()[1] == s;
    case Sold => assert StatusKeys()[2] == s;
    case Discarded => assert StatusKeys()[3] == s;
  }

  /** The column titles of `STATUS_MAP`. */
  function StatusTitle(s: LeadStatus): (r: string)
    ensures r != ""
  {
    match s
    case New => "Nuevo"
    case Contacted => "Contactado"
    case Sold => "Vendido"
    case Discarded => "Descartado"
  }

  lemma StatusTitlesDistinct(a: LeadStatus, b: LeadStatus)
    ensures StatusTitle(a) == StatusTitle(b) ==> a == b
  {
  }

  /** `STATUS_PREV`: where the back arrow takes a lead; a new lead has none. */
  function Prev(s: LeadStatus): (r: Option<LeadStatus>)
    ensures r.None? <==> s == New
  {
    match s
    case New => None
    case Contacted => Some(New)
    case Sold => Some(Contacted)
    case Discarded => Some(Contacted)
  }

  /** The forward buttons of a card: "Marcar Contactado" on a new lead, "Vender" and
      discard on a contacted one, none on a sold or discarded one. */
  function ForwardActions(s: LeadStatus): (r: seq<LeadStatus>)
    ensures s == New ==> r == [Contacted]
    ensures s == Contacted ==> r == [Sold, Discarded]
    ensures s == Sold || s == Discarded ==> r == []
  {
    match s
    case New => [Contacted]
    case Contacted => [Sold, Discarded]
    case Sold => []
    case Discarded => []
  }

  /** The back edges are exactly the forward edges reversed. */
  lemma BackEdgesReverseForward(s: LeadStatus, t: LeadStatus)
    ensures Prev(t) == Some(s) <==> t in ForwardActions(s)
  {
  }

  /** No status is its own predecessor, and going back twice from a closed lead
      reaches a new lead, which has nowhere further back to go. */
  lemma BackChainEndsAtNew(s: LeadStatus)
    ensures Prev(s) != Some(s)
    ensures Prev(s).Some? && Prev(Prev(s).value).Some? ==> Prev(Prev(s).value) == Some(New) && Prev(New).None?
  {
  }

  /** The delete button is enabled only on a discarded lead. */
  predicate DeleteEnabled(s: LeadStatus) {
    s == Discarded
  }

  /** The delete button's click: the id handed to the delete handler, if any. */
  function DeleteClick(lead: Lead): (r: Option<string>)
    ensures r.Some? <==> DeleteEnabled(lead.status)
    ensures r.Some? ==> r.value == lead.id
  {
    if lead.status == Discarded then Some(lead.id) else None
  }

  /** The characters the phone clean-up strips: whitespace, parentheses and dashes. */
  predicate IsPhoneSeparator(c: char) {
    IsJsWhitespace(c) || c == '(' || c == ')' || c == '-'
  }

  function KeepPhoneChar(c: char): bool {
    !IsPhoneSeparator(c)
  }

  /** `formatWhatsAppPhone`: the phone without whitespace, '(', ')' and '-'; every
      other character is kept, in order. */
  function FormatWhatsAppPhone(phone: string): (r: string)
    ensures |r| <= |phone|
    ensures forall i :: 0 <= i < |r| ==> !IsPhoneSeparator(r[i])
    ensures forall i :: 0 <= i < |phone| && !IsPhoneSeparator(phone[i]) ==> phone[i] in r
    ensures multiset(r) <= multiset(phone)
  {
    Filter(phone, KeepPhoneChar)
  }

  /** Cleaning a cleaned number changes nothing. */
  lemma FormatWhatsAppPhoneIdempotent(phone: string)
    ensures FormatWhatsAppPhone(FormatWhatsAppPhone(phone)) == FormatWhatsAppPhone(phone)
  {
    FilterIdempotent(phone, KeepPhoneChar);
  }

  /** A number without separators is left as it is. */
  lemma FormatWhatsAppPhoneKeepsPlain(phone: string)
    requires forall i :: 0 <= i < |phone| ==> !IsPhoneSeparator(phone[i])
    ensures FormatWhatsAppPhone(phone) == phone
  {
    FilterKeepsAll(phone, KeepPhoneChar);
  }

  /** Cleaning works piece by piece, so the digits keep their order. */
  lemma FormatWhatsAppPhoneAppend(a: string, b: string)
    ensures FormatWhatsAppPhone(a + b) == FormatWhatsAppPhone(a) + FormatWhatsAppPhone(b)
  {
    FilterAppend(a, b, KeepPhoneChar);
  }

  function InStatus(status: LeadStatus): Lead -> bool {
    (l: Lead) => l.status == status
  }

  /** A column: the leads in that status, in list order; its badge shows its length. */
  function Column(leads: seq<Lead>, status: LeadStatus): (r: seq<Lead>)
    ensures forall i :: 0 <= i < |r| ==> r[i].status == status && r[i] in leads
    ensures forall i :: 0 <= i < |leads| && leads[i].status == status ==> leads[i] in r
    ensures multiset(r) <= multiset(leads)
  {
    Filter(leads, InStatus(status))
  }

  /** A column takes the leads one by one, so it keeps their order. */
  lemma ColumnAppend(a: seq<Lead>, b: seq<Lead>, status: LeadStatus)
    ensures Column(a + b, status) == Column(a, status) + Column(b, status)
  {
    FilterAppend(a, b, InStatus(status));
  }

  /** The four column badges add up to the number of leads: every lead sits in
      exactly one column. */
  lemma {:induction false} ColumnsPartition(leads: seq<Lead>)
    ensures |Column(leads, New)| + |Column(leads, Contacted)| + |Column(leads, Sold)| + |Column(leads, Discarded)| == |leads|
  {
    if leads != [] {
      ColumnsPartition(leads[1..]);
    }
  }

  /** A lead shows in its own column only. */
  lemma LeadInOneColumn(leads: seq<Lead>, i: nat, status: LeadStatus)
    requires i < |leads|
    ensures leads[i] in Column(leads, status) <==> leads[i].status == status
  {
  }

  /** The list after a delete: the leads with that id go, the others keep their order. */
  function RemoveLead(leads: seq<Lead>, leadId: string): (r: seq<Lead>)
    ensures forall i :: 0 <= i < |r| ==> r[i].id != leadId
    ensures forall i :: 0 <= i < |leads| && leads[i].id != leadId ==> leads[i] in r
    ensures multiset(r) <= multiset(leads)
  {
    Filter(leads, (l: Lead) => l.id != leadId)
  }

  /** A delete takes away exactly the leads with that id. */
  lemma {:induction false} RemoveLeadCount(leads: seq<Lead>, leadId: string)
    ensures |RemoveLead(leads, leadId)| + |Filter(leads, (l: Lead) => l.id == leadId)| == |leads|
  {
    FilterSplitsLength(leads, (l: Lead) => l.id != leadId, (l: Lead) => l.id == leadId);
  }

  /** Deleting the same id again changes nothing. */
  lemma RemoveLeadIdempotent(leads: seq<Lead>, leadId: string)
    ensures RemoveLead(RemoveLead(leads, leadId), leadId) == RemoveLead(leads, leadId)
  {
    FilterIdempotent(leads, (l: Lead) => l.id != leadId);
  }

  /** A delete commutes with the list being split: removal keeps the relative order. */
  lemma RemoveLeadAppend(a: seq<Lead>, b: seq<Lead>, leadId: string)
    ensures RemoveLead(a + b, leadId) == RemoveLead(a, leadId) + RemoveLead(b, leadId)
  {
    FilterAppend(a, b, (l: Lead) => l.id != leadId);
  }
}
