/**
 * The admin routes: `GET /sounds` with report counts, `DELETE /sounds/:soundId` and
 * `GET /reports` with their sound and reporter. Each is guarded only by the token
 * middleware, whose decision is the `auth` argument.
 */
module Admin {
  import opened Wrappers
  import opened Seqs
  import opened Records
  import opened Middleware

  const MsgDeleted := "Sound deleted successfully"

  /** A stored sound together with the number of reports about it. */
  datatype SoundWithReports = SoundWithReports(sound: Sound, reports: nat)

  /** The id and name of the user who filed a report. */
  datatype ReporterSummary = ReporterSummary(id: string, name: string)

  /** A stored report with its sound and reporter resolved, each possibly missing. */
  datatype ReportView = ReportView(report: Report, sound: Option<Sound>, reporter: Option<ReporterSummary>)

  /** Holds of the reports about the given sound. */
  function AboutSound(soundId: string): Report -> bool
  {
    (rep: Report) => rep.soundId == soundId
  }

  /** Holds of the sounds whose id differs from the given one. */
  function IdIsNot(soundId: string): Sound -> bool
  {
    (s: Sound) => s.id != soundId
  }

  // ---------------------------------------------------------------------------
  // GET /sounds

  /** The number of reports about the given sound, counted by filtering. */
  function ReportCount(reports: seq<Report>, soundId: string): (n: nat)
    ensures n == |set j: nat | j < |reports| && reports[j].soundId == soundId|
  {
    FilterLengthIsPositionCount(reports, AboutSound(soundId));
    assert Positions(reports, AboutSound(soundId)) == set j: nat | j < |reports| && reports[j].soundId == soundId;
    |Filter(reports, AboutSound(soundId))|
  }

  /** Every stored sound, in order, with the number of reports about it. */
  function SoundsWithReportCounts(sounds: seq<Sound>, reports: seq<Report>): (r: seq<SoundWithReports>)
    ensures |r| == |sounds|
    ensures forall i :: 0 <= i < |r| ==> r[i].sound == sounds[i]
    ensures forall i :: 0 <= i < |r| ==>
              r[i].reports == |set j: nat | j < |reports| && reports[j].soundId == sounds[i].id|
  {
    seq(|sounds|, i requires 0 <= i < |sounds| => SoundWithReports(sounds[i], ReportCount(reports, sounds[i].id)))
  }

  /** The route: any authenticated caller gets the list. */
  function ListSounds(auth: AuthOutcome, sounds: seq<Sound>, reports: seq<Report>)
    : (r: Response<seq<SoundWithReports>>)
    ensures auth.Denied? ==> r == Error(auth.status, auth.message)
    ensures auth.Authorized? ==> r.Success? && r.status == 200
    ensures r.Success? ==> r.value == SoundsWithReportCounts(sounds, reports)
  {
    match auth
    case Denied(status, message) => Error(status, message)
    case Authorized(_) => Success(200, SoundsWithReportCounts(sounds, reports))
  }

  /** A report appended about a sound raises that sound's count by one and no other. */
  lemma NewReportCountsOnce(sounds: seq<Sound>, reports: seq<Report>, rep: Report, i: nat)
    requires i < |sounds|
    ensures SoundsWithReportCounts(sounds, reports + [rep])[i].reports ==
            SoundsWithReportCounts(sounds, reports)[i].reports + (if rep.soundId == sounds[i].id then 1 else 0)
  {
    var p := AboutSound(sounds[i].id);
    FilterConcat(reports, [rep], p);
    assert [rep][1..] == [];
  }

  // ---------------------------------------------------------------------------
  // DELETE /sounds/:soundId

  /** The route: the answer and the `sounds` collection written back. */
  function DeleteSound(auth: AuthOutcome, sounds: seq<Sound>, soundId: string)
    : (r: (Response<string>, seq<Sound>))
    ensures auth.Denied? ==> r == (Error(auth.status, auth.message), sounds)
    ensures auth.Authorized? ==> r.0 == Success(200, MsgDeleted)
    ensures |r.1| <= |sounds|
    ensures forall i :: 0 <= i < |r.1| ==> auth.Authorized? ==> r.1[i].id != soundId
    ensures auth.Authorized? ==> forall s :: s in r.1 <==> s in sounds && s.id != soundId
  {
    match auth
    case Denied(status, message) => (Error(status, message), sounds)
    case Authorized(_) => (Success(200, MsgDeleted), Filter(sounds, IdIsNot(soundId)))
  }

  /** Deleting keeps every other sound, as often as it was stored. */
  lemma DeleteKeepsOthers(auth: AuthOutcome, sounds: seq<Sound>, soundId: string, s: Sound)
    requires s.id != soundId
    ensures multiset(DeleteSound(auth, sounds, soundId).1)[s] == multiset(sounds)[s]
  {
    if auth.Authorized? {
      FilterMultiplicity(sounds, IdIsNot(soundId), s);
    }
  }

  /** Deleting from a concatenation deletes from each part: relative order is kept. */
  lemma DeleteKeepsOrder(auth: AuthOutcome, a: seq<Sound>, b: seq<Sound>, soundId: string)
    ensures DeleteSound(auth, a + b, soundId).1 == DeleteSound(auth, a, soundId).1 + DeleteSound(auth, b, soundId).1
  {
    if auth.Authorized? {
      FilterConcat(a, b, IdIsNot(soundId));
    }
  }

  /** Deleting an id that is not stored succeeds and changes nothing. */
  lemma DeleteAbsentIsNoop(auth: AuthOutcome, sounds: seq<Sound>, soundId: string)
    requires auth.Authorized?
    requires forall i :: 0 <= i < |sounds| ==> sounds[i].id != soundId
    ensures DeleteSound(auth, sounds, soundId) == (Success(200, MsgDeleted), sounds)
  {
    FilterIsIdentity(sounds, IdIsNot(soundId));
  }

  /** Deleting twice is deleting once. */
  lemma DeleteIdempotent(auth: AuthOutcome, sounds: seq<Sound>, soundId: string)
    ensures var once := DeleteSound(auth, sounds, soundId);
            DeleteSound(auth, once.1, soundId) == once
  {
    if auth.Authorized? {
      FilterIdempotent(sounds, IdIsNot(soundId));
    }
  }

  // ---------------------------------------------------------------------------
  // GET /reports

  /** One report with its sound and reporter resolved by id; a dangling id becomes `null`. */
  function Detail(rep: Report, sounds: seq<Sound>, users: seq<User>): (v: ReportView)
    ensures v.report == rep
    ensures v.sound.None? <==> forall j :: 0 <= j < |sounds| ==> sounds[j].id != rep.soundId
    ensures v.sound.Some? ==> exists k :: 0 <= k < |sounds| && sounds[k] == v.sound.value &&
                                          sounds[k].id == rep.soundId &&
                                          forall j :: 0 <= j < k ==> sounds[j].id != rep.soundId
    ensures v.reporter.None? <==> forall j :: 0 <= j < |users| ==> users[j].id != rep.userId
    ensures v.reporter.Some? ==> v.reporter.value.id == rep.userId &&
                                 exists k :: 0 <= k < |users| && users[k].id == rep.userId &&
                                             (forall j :: 0 <= j < k ==> users[j].id != rep.userId) &&
                                             v.reporter.value.name == users[k].name
  {
    var sound := Find(sounds, SoundIdIs(rep.soundId));
    var reporter := Find(users, UserIdIs(rep.userId));
    ReportView(rep, sound, if reporter.Some? then Some(ReporterSummary(reporter.value.id, reporter.value.name)) else None)
  }

  /** Every stored report, in order, with its details. */
  function ReportsWithDetails(reports: seq<Report>, sounds: seq<Sound>, users: seq<User>): (r: seq<ReportView>)
    ensures |r| == |reports|
    ensures forall i :: 0 <= i < |r| ==> r[i].report == reports[i]
    ensures forall i :: 0 <= i < |r| ==> r[i] == Detail(reports[i], sounds, users)
  {
    seq(|reports|, i requires 0 <= i < |reports| => Detail(reports[i], sounds, users))
  }

  /** The route: any authenticated caller gets the list. */
  function ListReports(auth: AuthOutcome, reports: seq<Report>, sounds: seq<Sound>, users: seq<User>)
    : (r: Response<seq<ReportView>>)
    ensures auth.Denied? ==> r == Error(auth.status, auth.message)
    ensures auth.Authorized? ==> r.Success? && r.status == 200
    ensures r.Success? ==> r.value == ReportsWithDetails(reports, sounds, users)
  {
    match auth
    case Denied(status, message) => Error(status, message)
    case Authorized(_) => Success(200, ReportsWithDetails(reports, sounds, users))
  }

  /** A report whose sound was deleted is still listed, with `sound` null. */
  lemma DeletedSoundReportStillListed(auth: AuthOutcome, reports: seq<Report>, sounds: seq<Sound>,
                                      users: seq<User>, i: nat)
    requires auth.Authorized? && i < |reports|
    ensures var after := DeleteSound(auth, sounds, reports[i].soundId).1;
            var listed := ListReports(auth, reports, after, users);
            listed.Success? && |listed.value| == |reports| &&
            listed.value[i].report == reports[i] && listed.value[i].sound.None?
  {
    var after := DeleteSound(auth, sounds, reports[i].soundId).1;
    assert forall j :: 0 <= j < |after| ==> after[j].id != reports[i].soundId;
  }

  /** No role check: which user the token names does not change any admin answer. */
  lemma AnyAuthenticatedUserIsAdmin(a: string, b: string, sounds: seq<Sound>, reports: seq<Report>,
                                    users: seq<User>, soundId: string)
    ensures ListSounds(Authorized(a), sounds, reports) == ListSounds(Authorized(b), sounds, reports)
    ensures DeleteSound(Authorized(a), sounds, soundId) == DeleteSound(Authorized(b), sounds, soundId)
    ensures ListReports(Authorized(a), reports, sounds, users) == ListReports(Authorized(b), reports, sounds, users)
  {
  }
}
