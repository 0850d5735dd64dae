/**
  The values the report store keeps: reports with their status timeline and
  internal notes, drafts, and the pure computations the store performs on them
  (first-match lookup and the three in-place edits, each as a function from the
  old report to the new one).
 */
module Reports {
  import opened Wrappers

  /** The report lifecycle: submitted, received, assigned, in progress, resolved.
      No ordering between them is enforced anywhere. */
  datatype Status = Submitted | Received | Assigned | InProgress | Resolved

  /** A maintenance team, by name (e.g. "roads", "electricity"). */
  type Team = string

  /** One entry of a report's timeline; appended, never rewritten. */
  datatype TimelineEntry = TimelineEntry(
    status: Status,
    timestamp: string,
    note: Option<string>,
    actor: Option<string>)

  datatype Contact = Contact(phone: Option<string>)

  /** What the resident filled in; the store never changes any of it. */
  datatype Details = Details(
    category: string,
    title: string,
    description: string,
    panchayat: string,
    address: string,
    urgency: string,
    photos: seq<string>,
    anonymous: bool,
    contact: Option<Contact>)

  datatype Report = Report(
    id: string,
    trackingId: string,
    details: Details,
    status: Status,
    assignedTeam: Option<Team>,
    createdAt: string,
    updatedAt: string,
    history: seq<TimelineEntry>,
    internalNotes: Option<seq<string>>)

  /** An unsubmitted report form: any subset of the resident's fields. */
  datatype Draft = Draft(
    category: Option<string>,
    title: Option<string>,
    description: Option<string>,
    panchayat: Option<string>,
    address: Option<string>,
    urgency: Option<string>,
    photos: Option<seq<string>>,
    anonymous: Option<bool>,
    contact: Option<Contact>)

  // ---------------------------------------------------------------- timeline invariant

  /** The timeline is non-empty and its last entry records the current status. */
  predicate TimelineConsistent(r: Report) {
    |r.history| > 0 && r.history[|r.history| - 1].status == r.status
  }

  predicate AllConsistent(rs: seq<Report>) {
    forall i :: 0 <= i < |rs| ==> TimelineConsistent(rs[i])
  }

  /** Putting a report in front keeps the invariant exactly when the report
      itself satisfies it. */
  lemma PrependConsistent(r: Report, rs: seq<Report>)
    ensures AllConsistent([r] + rs) <==> TimelineConsistent(r) && AllConsistent(rs)
  {
    var all := [r] + rs;
    assert all[0] == r;
    assert forall i :: 0 <= i < |rs| ==> all[i + 1] == rs[i];
  }

  // ---------------------------------------------------------------- lookup

  /** Which key a lookup compares: the internal id or the tracking id. */
  datatype Key = ById | ByTrackingId

  function KeyOf(r: Report, key: Key): string {
    match key
    case ById => r.id
    case ByTrackingId => r.trackingId
  }

  /** `i` is the position of the first report whose key equals `k`. */
  predicate IsFirstMatch(rs: seq<Report>, key: Key, k: string, i: nat) {
    i < |rs| && KeyOf(rs[i], key) == k &&
    forall j :: 0 <= j < i ==> KeyOf(rs[j], key) != k
  }

  /** `Array.prototype.findIndex` with a key comparison: the first matching
      position, or nothing exactly when no report matches. */
  function FindIndex(rs: seq<Report>, key: Key, k: string): (i: Option<nat>)
    ensures i.Some? ==> IsFirstMatch(rs, key, k, i.value)
    ensures i.None? <==> forall j :: 0 <= j < |rs| ==> KeyOf(rs[j], key) != k
  {
    if rs == [] then None
    else if KeyOf(rs[0], key) == k then Some(0)
    else match FindIndex(rs[1..], key, k)
      case None => None
      case Some(j) => Some(j + 1)
  }

  // ---------------------------------------------------------------- edits of one report

  /** Records a status change: the status is set and the timeline grows by one
      entry carrying the new status, the time, the note and the actor. */
  function WithStatus(r: Report, s: Status, note: Option<string>, actor: Option<string>, now: string): (u: Report)
    ensures u.status == s && u.updatedAt == now
    ensures TimelineConsistent(u)
    ensures |u.history| == |r.history| + 1 && u.history[..|r.history|] == r.history
    ensures u.history[|r.history|] == TimelineEntry(s, now, note, actor)
    ensures u.(status := r.status, updatedAt := r.updatedAt, history := r.history) == r
  {
    r.(status := s, updatedAt := now, history := r.history + [TimelineEntry(s, now, note, actor)])
  }

  /** The statuses from which assigning a team also moves the report to `Assigned`. */
  predicate AutoAssigns(s: Status) {
    s == Submitted || s == Received
  }

  /** The note of the timeline entry that an automatic assignment appends. */
  function AssignmentNote(team: Team): string {
    "Assigned to " + team + " team"
  }

  /** Assigns a team; a report still `Submitted` or `Received` also becomes
      `Assigned`, with one timeline entry saying so. Other statuses keep their
      status and timeline. */
  function WithTeam(r: Report, team: Team, now: string): (u: Report)
    ensures u.assignedTeam == Some(team) && u.updatedAt == now
    ensures AutoAssigns(r.status) ==>
      && u.status == Assigned
      && u.history == r.history + [TimelineEntry(Assigned, now, Some(AssignmentNote(team)), None)]
    ensures !AutoAssigns(r.status) ==> u.status == r.status && u.history == r.history
    ensures TimelineConsistent(u) <==> TimelineConsistent(r) || AutoAssigns(r.status)
    ensures u.(assignedTeam := r.assignedTeam, updatedAt := r.updatedAt, status := r.status, history := r.history) == r
  {
    var teamed := r.(assignedTeam := Some(team), updatedAt := now);
    if AutoAssigns(r.status) then
      teamed.(status := Assigned,
                history := r.history + [TimelineEntry(Assigned, now, Some(AssignmentNote(team)), None)])
    else
      teamed
  }

  /** The notes recorded so far; a report without a notes list has none. */
  function NotesOf(r: Report): seq<string> {
    if r.internalNotes.Some? then r.internalNotes.value else []
  }

  /** A note as stored: `[<local time>] <note>`. */
  function StampedNote(localTime: string, note: string): string {
    "[" + localTime + "] " + note
  }

  /** Appends a time-stamped internal note, creating the notes list if the
      report has none; status, timeline and team are untouched. */
  function WithNote(r: Report, note: string, localTime: string, now: string): (u: Report)
    ensures u.internalNotes.Some? && u.updatedAt == now
    ensures |u.internalNotes.value| == |NotesOf(r)| + 1
    ensures u.internalNotes.value[..|NotesOf(r)|] == NotesOf(r)
    ensures var last := u.internalNotes.value[|NotesOf(r)|];
      |last| >= |note| && last[|last| - |note|..] == note
    ensures u.(internalNotes := r.internalNotes, updatedAt := r.updatedAt) == r
    ensures TimelineConsistent(u) <==> TimelineConsistent(r)
  {
    r.(internalNotes := Some(NotesOf(r) + [StampedNote(localTime, note)]), updatedAt := now)
  }

  // ---------------------------------------------------------------- order of saving

  /** Reference reversal of a sequence. */
  function Reverse<T>(s: seq<T>): (r: seq<T>)
    ensures |r| == |s|
  {
    if s == [] then [] else Reverse(s[1..]) + [s[0]]
  }

  /** The list left after saving `xs` one by one, in order, onto `rs`; each save
      puts its report in front. */
  function SaveAll(rs: seq<Report>, xs: seq<Report>): seq<Report> {
    if xs == [] then rs else [xs[|xs| - 1]] + SaveAll(rs, xs[..|xs| - 1])
  }

  lemma {:induction false} ReverseSnoc<T>(s: seq<T>, x: T)
    ensures Reverse(s + [x]) == [x] + Reverse(s)
  {
    if s != [] {
      assert (s + [x])[1..] == s[1..] + [x];
      ReverseSnoc(s[1..], x);
    }
  }

  /** Saving a run of reports leaves them newest first: in exact reverse order
      of saving, ahead of what was there before. */
  lemma {:induction false} SaveAllReverses(rs: seq<Report>, xs: seq<Report>)
    ensures SaveAll(rs, xs) == Reverse(xs) + rs
  {
    if xs != [] {
      var init, x := xs[..|xs| - 1], xs[|xs| - 1];
      assert xs == init + [x];
      SaveAllReverses(rs, init);
      ReverseSnoc(init, x);
    }
  }
}
