/** The downloads folder as the conversion sees it: the set of paths that
    exist. `fs.existsSync` reads it, `fs.unlinkSync` removes one path, and an
    external process that writes its output file adds one. */
module FileSystem {

  class Disk {
    var files: set<string>

    constructor (initial: set<string>)
      ensures files == initial
    {
      files := initial;
    }

    /** `fs.existsSync(path)` */
    function Exists(path: string): bool
      reads this
    {
      path in files
    }

    /** `fs.unlinkSync(path)`, which throws when the path does not exist; the
        handler only unlinks paths it has just seen to exist. */
    method Unlink(path: string)
      requires path in files
      modifies this
      ensures files == old(files) - {path}
    {
      files := files - {path};
    }

    /** A process that creates (or overwrites) its output file. */
    method Create(path: string)
      modifies this
      ensures files == old(files) + {path}
    {
      files := files + {path};
    }
  }
}
