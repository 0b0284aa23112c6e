/**
 * The records of the three collections, the views the handlers send back, the
 * response shape, and the store that holds the collections in memory.
 */
module Records {
  import opened Wrappers

  /** An account as stored in `users`; `password` holds the bcrypt digest. */
  datatype User = User(id: string, name: string, email: string, password: string,
                       bio: string, avatar: string, createdAt: string)

  /** An account without its password field, as login and profile send it back. */
  datatype PublicUser = PublicUser(id: string, name: string, email: string,
                                   bio: string, avatar: string, createdAt: string)

  /** A sound pin as stored in `sounds`. */
  datatype Sound = Sound(id: string, userId: string, title: string, description: string,
                         tags: seq<string>, category: string, language: string, privacy: string,
                         latitude: real, longitude: real, filename: string, createdAt: string)

  /** An abuse report as stored in `reports`; the reporting flow that writes them is elsewhere. */
  datatype Report = Report(id: string, soundId: string, userId: string, reason: string)

  /** Holds of the accounts with the given id. */
  function UserIdIs(userId: string): User -> bool
  {
    (u: User) => u.id == userId
  }

  /** Holds of the sounds with the given id. */
  function SoundIdIs(soundId: string): Sound -> bool
  {
    (s: Sound) => s.id == soundId
  }

  /**
   * A handler's answer: an HTTP status with a `{ message }` body, or a status with
   * the JSON payload of a successful request.
   */
  datatype Response<T> = Error(status: nat, message: string) | Success(status: nat, value: T)

  /** The in-memory image of the data directory: each collection read and written wholesale. */
  class Store {
    var users: seq<User>
    var sounds: seq<Sound>
    var reports: seq<Report>

    /** `initializeStorage` on a fresh data directory: every collection starts empty. */
    constructor ()
      ensures users == [] && sounds == [] && reports == []
    {
      users, sounds, reports := [], [], [];
    }
  }
}
