/**
 * The sound routes (mounted at `/api/comments`): `GET /` lists public sounds with their
 * owners, `POST /` uploads a sound, `GET /user/:userId` lists one user's public sounds.
 * `parseFloat` and `JSON.parse` of the tags field are oracles passed in by the caller,
 * as are the `uuid` id and the timestamp of a new sound.
 */
module Catalog {
  import opened Wrappers
  import opened Js
  import opened Seqs
  import opened Records
  import opened Middleware

  const MsgMissingFields := "Missing required fields"
  const MsgAudioRequired := "Audio file is required"
  const MsgInvalidCoordinates := "Invalid coordinates"
  const MsgServerError := "Server error"
  const MsgUploaded := "Sound uploaded successfully"
  const PublicPrivacy := "public"

  /** `{ id, name, avatar }` of an owner: never the email or the password digest. */
  datatype OwnerSummary = OwnerSummary(id: string, name: string, avatar: string)

  /** A sound together with its owner's summary, or no owner when none is found. */
  datatype SoundView = SoundView(sound: Sound, user: Option<OwnerSummary>)

  function Summary(u: User): OwnerSummary
  {
    OwnerSummary(u.id, u.name, u.avatar)
  }

  /** The sound's privacy is exactly `public`. */
  predicate IsPublic(s: Sound)
  {
    s.privacy == PublicPrivacy
  }

  /** Holds of the public sounds owned by the given user. */
  function PublicOf(userId: string): Sound -> bool
  {
    (s: Sound) => s.userId == userId && s.privacy == PublicPrivacy
  }

  /** Holds of the sounds owned by the given user. */
  function OwnedBy(userId: string): Sound -> bool
  {
    (s: Sound) => s.userId == userId
  }

  /** The summary of the first user with this id, or `null`. */
  function OwnerOf(users: seq<User>, userId: string): (r: Option<OwnerSummary>)
    ensures r.None? <==> forall i :: 0 <= i < |users| ==> users[i].id != userId
    ensures r.Some? ==> r.value.id == userId
    ensures r.Some? ==> exists k :: 0 <= k < |users| && users[k].id == userId &&
                                    (forall j :: 0 <= j < k ==> users[j].id != userId) &&
                                    r.value == Summary(users[k])
  {
    match Find(users, UserIdIs(userId))
    case None => None
    case Some(u) => Some(Summary(u))
  }

  /** A sound joined with its owner. */
  function WithOwner(s: Sound, users: seq<User>): SoundView
  {
    SoundView(s, OwnerOf(users, s.userId))
  }

  /** The sounds of a listing, with the owner join taken off. */
  function SoundsOf(views: seq<SoundView>): (r: seq<Sound>)
    ensures |r| == |views| && forall i :: 0 <= i < |r| ==> r[i] == views[i].sound
  {
    seq(|views|, i requires 0 <= i < |views| => views[i].sound)
  }

  /** Each sound of a listing, in order, joined with its owner's summary. */
  function JoinOwners(publicSounds: seq<Sound>, users: seq<User>): (r: seq<SoundView>)
    ensures SoundsOf(r) == publicSounds
    ensures forall i :: 0 <= i < |r| ==> r[i].user == OwnerOf(users, r[i].sound.userId)
  {
    var r := seq(|publicSounds|, i requires 0 <= i < |publicSounds| => WithOwner(publicSounds[i], users));
    assert SoundsOf(r) == publicSounds;
    r
  }

  /** Joining a concatenation joins each part. */
  lemma JoinOwnersConcat(a: seq<Sound>, b: seq<Sound>, users: seq<User>)
    ensures JoinOwners(a + b, users) == JoinOwners(a, users) + JoinOwners(b, users)
  {
    var l, r := JoinOwners(a + b, users), JoinOwners(a, users) + JoinOwners(b, users);
    assert |l| == |r|;
    forall i | 0 <= i < |l| ensures l[i] == r[i] {
      if i < |a| {
        assert (a + b)[i] == a[i];
      } else {
        assert (a + b)[i] == b[i - |a|];
      }
    }
  }

  /** `GET /`: the public sounds in stored order, each joined with its owner's summary. */
  function ListPublicSounds(sounds: seq<Sound>, users: seq<User>): (r: seq<SoundView>)
    ensures |r| <= |sounds|
    ensures SoundsOf(r) == Filter(sounds, IsPublic)
    ensures forall i :: 0 <= i < |r| ==> r[i].sound.privacy == PublicPrivacy
    ensures forall s :: s in sounds && s.privacy == PublicPrivacy <==> s in SoundsOf(r)
    ensures forall i :: 0 <= i < |r| ==> r[i].user == OwnerOf(users, r[i].sound.userId)
  {
    JoinOwners(Filter(sounds, IsPublic), users)
  }

  /** Listing a concatenation lists each part in turn: stored order is kept. */
  lemma ListPublicSoundsConcat(a: seq<Sound>, b: seq<Sound>, users: seq<User>)
    ensures ListPublicSounds(a + b, users) == ListPublicSounds(a, users) + ListPublicSounds(b, users)
  {
    FilterConcat(a, b, IsPublic);
    JoinOwnersConcat(Filter(a, IsPublic), Filter(b, IsPublic), users);
  }

  /** A public sound is listed as often as it is stored; a private one never. */
  lemma ListPublicSoundsMultiplicity(sounds: seq<Sound>, users: seq<User>, s: Sound)
    ensures multiset(SoundsOf(ListPublicSounds(sounds, users)))[s] ==
              if s.privacy == PublicPrivacy then multiset(sounds)[s] else 0
  {
    FilterMultiplicity(sounds, IsPublic, s);
  }

  /** `GET /user/:userId`: that user's public sounds in stored order; private ones are never listed. */
  function ListUserSounds(sounds: seq<Sound>, userId: string): (r: seq<Sound>)
    ensures |r| <= |sounds|
    ensures forall i :: 0 <= i < |r| ==> r[i].userId == userId && r[i].privacy == PublicPrivacy
    ensures forall s :: s in r <==> s in sounds && s.userId == userId && s.privacy == PublicPrivacy
  {
    Filter(sounds, PublicOf(userId))
  }

  /** A user's listing is the public listing restricted to that owner. */
  lemma ListUserSoundsIsRestrictedPublicListing(sounds: seq<Sound>, users: seq<User>, userId: string)
    ensures ListUserSounds(sounds, userId) == Filter(SoundsOf(ListPublicSounds(sounds, users)), OwnedBy(userId))
  {
    FilterFilter(sounds, IsPublic, OwnedBy(userId), PublicOf(userId));
  }

  // ---------------------------------------------------------------------------
  // POST /

  /** The text fields of the multipart upload (`req.body`). */
  datatype UploadForm = UploadForm(title: Field, description: Field, tags: Field, category: Field,
                                   language: Field, privacy: Field, latitude: Field, longitude: Field)

  /** The stored audio file multer reports as `req.file`. */
  datatype UploadedFile = UploadedFile(filename: string)

  /** The body of a successful upload: a message and the new sound joined with its uploader. */
  datatype UploadReply = UploadReply(message: string, sound: SoundView)

  /** The six fields that must be present and non-empty. */
  predicate HasRequiredFields(form: UploadForm)
  {
    && Truthy(form.title) && Truthy(form.category) && Truthy(form.language)
    && Truthy(form.privacy) && Truthy(form.latitude) && Truthy(form.longitude)
  }

  /** Both coordinates are numbers within the inclusive ranges of latitude and longitude. */
  predicate ValidCoordinates(lat: Number, lng: Number)
  {
    && lat.Finite? && -90.0 <= lat.value <= 90.0
    && lng.Finite? && -180.0 <= lng.value <= 180.0
  }

  /** The source's rejection test, with JavaScript's NaN and infinity comparisons. */
  function CoordinatesRejected(lat: Number, lng: Number): (rejected: bool)
    ensures rejected <==> !ValidCoordinates(lat, lng)
  {
    lat.NaN? || LessThan(lat, -90.0) || GreaterThan(lat, 90.0) ||
    lng.NaN? || LessThan(lng, -180.0) || GreaterThan(lng, 180.0)
  }

  /** The record an accepted upload appends. */
  function NewSound(form: UploadForm, userId: string, id: string, createdAt: string, file: UploadedFile,
                    lat: real, lng: real, tags: seq<string>): Sound
    requires HasRequiredFields(form)
  {
    Sound(id, userId, form.title.value, OrEmpty(form.description), tags, form.category.value,
          form.language.value, form.privacy.value, lat, lng, file.filename, createdAt)
  }

  /**
   * The answer to an upload and the `sounds` collection afterwards. `auth` is what the
   * middleware decided; `file` is `req.file`; `id` is the `uuid` and `createdAt` the timestamp.
   */
  function UploadOutcome(sounds: seq<Sound>, users: seq<User>, auth: AuthOutcome, form: UploadForm,
                         file: Option<UploadedFile>, id: string, createdAt: string,
                         parseFloat: string -> Number, parseTags: string -> Option<seq<string>>)
    : (r: (Response<UploadReply>, seq<Sound>))
    ensures auth.Denied? ==> r == (Error(auth.status, auth.message), sounds)
    ensures auth.Authorized? && !HasRequiredFields(form) ==> r == (Error(400, MsgMissingFields), sounds)
    ensures auth.Authorized? && HasRequiredFields(form) && file.None? ==>
              r == (Error(400, MsgAudioRequired), sounds)
    ensures auth.Authorized? && HasRequiredFields(form) && file.Some? &&
            !ValidCoordinates(parseFloat(form.latitude.value), parseFloat(form.longitude.value)) ==>
              r == (Error(400, MsgInvalidCoordinates), sounds)
    ensures auth.Authorized? && HasRequiredFields(form) && file.Some? &&
            ValidCoordinates(parseFloat(form.latitude.value), parseFloat(form.longitude.value)) &&
            Truthy(form.tags) && parseTags(form.tags.value).None? ==>
              r == (Error(500, MsgServerError), sounds)
    ensures r.0.Error? ==> r.1 == sounds
    ensures r.0.Error? && auth.Authorized? && r.0.status == 500 ==>
              Truthy(form.tags) && parseTags(form.tags.value).None?
    ensures r.0.Success? <==>
              && auth.Authorized? && HasRequiredFields(form) && file.Some?
              && ValidCoordinates(parseFloat(form.latitude.value), parseFloat(form.longitude.value))
              && (Truthy(form.tags) ==> parseTags(form.tags.value).Some?)
    ensures r.0.Success? ==>
              && r.0.status == 201
              && |r.1| == |sounds| + 1 && r.1[..|sounds|] == sounds
              && var s := r.1[|sounds|];
                 && s.id == id && s.userId == auth.userId && s.title == form.title.value
                 && s.description == OrEmpty(form.description)
                 && s.tags == (if Truthy(form.tags) then parseTags(form.tags.value).value else [])
                 && s.category == form.category.value && s.language == form.language.value
                 && s.privacy == form.privacy.value
                 && Finite(s.latitude) == parseFloat(form.latitude.value)
                 && Finite(s.longitude) == parseFloat(form.longitude.value)
                 && s.filename == file.value.filename && s.createdAt == createdAt
                 && r.0.value == UploadReply(MsgUploaded, SoundView(s, OwnerOf(users, auth.userId)))
  {
    if auth.Denied? then (Error(auth.status, auth.message), sounds)
    else if !HasRequiredFields(form) then (Error(400, MsgMissingFields), sounds)
    else if file.None? then (Error(400, MsgAudioRequired), sounds)
    else
      var lat, lng := parseFloat(form.latitude.value), parseFloat(form.longitude.value);
      if CoordinatesRejected(lat, lng) then (Error(400, MsgInvalidCoordinates), sounds)
      else
        var tags := if Truthy(form.tags) then parseTags(form.tags.value) else Some([]);
        if tags.None? then (Error(500, MsgServerError), sounds)
        else
          var s := NewSound(form, auth.userId, id, createdAt, file.value, lat.value, lng.value, tags.value);
          (Success(201, UploadReply(MsgUploaded, SoundView(s, OwnerOf(users, auth.userId)))), sounds + [s])
  }

  /** The handler: validates, builds the record, and pushes it onto `sounds`. */
  method UploadSound(store: Store, auth: AuthOutcome, form: UploadForm, file: Option<UploadedFile>,
                     id: string, createdAt: string,
                     parseFloat: string -> Number, parseTags: string -> Option<seq<string>>)
    returns (resp: Response<UploadReply>)
    modifies store`sounds
    ensures (resp, store.sounds) ==
            UploadOutcome(old(store.sounds), store.users, auth, form, file, id, createdAt, parseFloat, parseTags)
  {
    if auth.Denied? {
      return Error(auth.status, auth.message);
    }
    if !(Truthy(form.title) && Truthy(form.category) && Truthy(form.language) &&
         Truthy(form.privacy) && Truthy(form.latitude) && Truthy(form.longitude)) {
      return Error(400, MsgMissingFields);
    }
    if file.None? {
      return Error(400, MsgAudioRequired);
    }
    var lat := parseFloat(form.latitude.value);
    var lng := parseFloat(form.longitude.value);
    if lat.NaN? || LessThan(lat, -90.0) || GreaterThan(lat, 90.0) ||
       lng.NaN? || LessThan(lng, -180.0) || GreaterThan(lng, 180.0) {
      return Error(400, MsgInvalidCoordinates);
    }
    var sounds := store.sounds;
    var tags := if Truthy(form.tags) then parseTags(form.tags.value) else Some([]);
    if tags.None? {
      return Error(500, MsgServerError);
    }
    var newSound := NewSound(form, auth.userId, id, createdAt, file.value, lat.value, lng.value, tags.value);
    sounds := sounds + [newSound];
    store.sounds := sounds;
    var user := OwnerOf(store.users, auth.userId);
    resp := Success(201, UploadReply(MsgUploaded, SoundView(newSound, user)));
  }

  /** An accepted upload of a public sound makes it appear last in `GET /`, joined with its uploader. */
  lemma UploadedPublicSoundIsListed(sounds: seq<Sound>, users: seq<User>, auth: AuthOutcome, form: UploadForm,
                                    file: Option<UploadedFile>, id: string, createdAt: string,
                                    parseFloat: string -> Number, parseTags: string -> Option<seq<string>>)
    requires UploadOutcome(sounds, users, auth, form, file, id, createdAt, parseFloat, parseTags).0.Success?
    requires form.privacy == Some(PublicPrivacy)
    ensures var r := UploadOutcome(sounds, users, auth, form, file, id, createdAt, parseFloat, parseTags);
            ListPublicSounds(r.1, users) == ListPublicSounds(sounds, users) + [r.0.value.sound]
  {
    var r := UploadOutcome(sounds, users, auth, form, file, id, createdAt, parseFloat, parseTags);
    var s := r.1[|sounds|];
    assert r.1 == sounds + [s];
    ListPublicSoundsConcat(sounds, [s], users);
    assert Filter([s], IsPublic) == [s] by {
      assert [s][1..] == [];
    }
  }
}
