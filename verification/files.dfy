/** What one turn observes of the files the speech synthesiser writes. The
    filesystem is not modelled; each file is given as the record of everything
    the turn will read from it. */
module Files {

  /** One pass of the size check: the size read before the short sleep and the
      size read after it. */
  datatype Sample = Sample(before: nat, after: nat)

  /** What happens when a player is started on the file: the call returns
      (whatever the player's exit status, since the status is not checked), it
      raises `FileNotFoundError`, or it raises another exception with the given
      message. */
  datatype Launch = Returns | RaisesNotFound | Raises(detail: string)

  /** A directory entry: its name, its modification time, the size samples the
      stabilisation loop will read from it, one per pass, and what launching a
      player on it does. */
  datatype WavFile = WavFile(name: string, mtime: int, sizes: seq<Sample>, launch: Launch)
}
