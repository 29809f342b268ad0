/** Files of one directory with what a power loss may leave of them. Writes become durable
    when the file is fsynced, names (creation, rename) when the directory is fsynced. */
module DurableFiles {

  /** What a name refers to; Torn is a file with missing or partial content. */
  datatype Image<+T> = Absent | Torn | Whole(content: T)

  /** `now` is what running processes see, `synced` says that the data of the file is on disk,
      and `after` holds every image that a power loss at this moment may leave. */
  datatype Name<T(==)> = Name(now: Image<T>, synced: bool, after: set<Image<T>>)

  function Fresh<T(==)>(): Name<T> {
    Name(Absent, true, {Absent})
  }

  /** `os.open(..., O_CREAT | O_EXCL)` on a free name */
  function Create<T(==)>(f: Name<T>): Name<T>
    requires f.now.Absent?
  {
    Name(Torn, false, f.after + {Torn})
  }

  /** The content of the file is now `x`. */
  function Write<T(==)>(f: Name<T>, x: T): Name<T> {
    Name(Whole(x), false, f.after + {Torn, Whole(x)})
  }

  function SyncFile<T(==)>(f: Name<T>): Name<T> {
    f.(synced := true)
  }

  /** `os.replace(source, target)`: the new target and the new source. */
  function Replace<T(==)>(source: Name<T>, target: Name<T>): (Name<T>, Name<T>) {
    (Name(source.now, source.synced, target.after + {source.now} + (if source.synced then {} else {Torn})),
     Name(Absent, true, source.after + {Absent}))
  }

  /** What the fsync of the directory does to one of its names. */
  function SyncName<T(==)>(f: Name<T>): Name<T> {
    f.(after := {f.now} + (if f.synced then {} else {Torn}))
  }

  /** The name after a power loss that left `image`. */
  function Recovered<T(==)>(image: Image<T>): Name<T> {
    Name(image, true, {image})
  }
}
