/** Values shared by the store, the progress parser and the worker. */
module Common {

  datatype Option<+T> = None | Some(value: T)

  datatype Result<+T, +E> = Ok(value: T) | Err(error: E)

  newtype byte = x: int | 0 <= x < 256

  type Text = seq<byte>

  /** The progress fields of a sync, as parsed from rsync's output and as stored in a record. */
  datatype Progress = Progress(percent: nat, speed: nat, downloaded: nat, timeLeft: Text)

  const NO_PROGRESS := Progress(0, 0, 0, [])
}
