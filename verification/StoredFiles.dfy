/** Cache files as their users see them: what is stored, and what a write can do to it. */
module StoredFiles {
  /** A cache file: missing, unparsable, or holding a value; with its mtime. */
  datatype Stored<+T> = Absent | Garbled(at: nat) | Content(at: nat, value: T)

  /** What `write_cache` can do: write all, refuse to open (None), or die half-way (None). */
  datatype Outcome = Written | Refused | Torn

  function MTime<T>(f: Stored<T>): nat {
    if f.Absent? then 0 else f.at
  }

  function Save<T>(f: Stored<T>, v: T, outcome: Outcome, t: nat): Stored<T> {
    match outcome
    case Written => Content(t, v)
    case Refused => f
    case Torn => Garbled(t)
  }
}
