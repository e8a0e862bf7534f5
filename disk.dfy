/** The part of the operating system's filesystem the program touches: regular
    files with their text, and directories. The methods are the primitives the
    program calls (`open(p, "w")`, `open(p, "a")`, `touch`, `mkdir(parents=True,
    exist_ok=True)`); each either succeeds or raises `OSError` and changes nothing. */
module Disk {
  import opened Paths

  /** `p` and every ancestor of `p` below the root. */
  function Ancestry(p: Path): set<Path>
  {
    set k | 0 < k <= |p| :: p[..k]
  }

  class FileSystem {
    var files: map<Path, string>
    var dirs: set<Path>

    constructor (files: map<Path, string>, dirs: set<Path>)
      ensures this.files == files && this.dirs == dirs
    {
      this.files := files;
      this.dirs := dirs;
    }

    /** `p.is_file()` */
    predicate IsFile(p: Path)
      reads this
    {
      p in files
    }

    /** `p.is_dir()`; the root always exists. */
    predicate IsDir(p: Path)
      reads this
    {
      p == [] || p in dirs
    }

    /** `p.exists()` */
    predicate Exists(p: Path)
      reads this
    {
      IsFile(p) || IsDir(p)
    }

    /** What reading `p` gives, or nothing for a file not there. */
    function Content(p: Path): string
      reads this
    {
      if p in files then files[p] else []
    }

    /** `open(p, "w")` and `open(p, "a")` succeed: `p` is not a directory and its
        parent is one (a missing file is then created). */
    predicate CanOpenForWriting(p: Path)
      reads this
    {
      p != [] && !IsDir(p) && IsDir(Parent(p))
    }

    /** `mkdir(parents=True, exist_ok=True)` succeeds: no prefix of `p` is a file. */
    predicate CanMakeDirs(p: Path)
      reads this
    {
      forall q :: q in Ancestry(p) ==> q !in files
    }

    /** `open(p, "w")` followed by writing `text`. */
    method Write(p: Path, text: string) returns (ok: bool)
      modifies this
      ensures ok == old(CanOpenForWriting(p))
      ensures files == if ok then old(files)[p := text] else old(files)
      ensures dirs == old(dirs)
    {
      ok := CanOpenForWriting(p);
      if ok {
        files := files[p := text];
      }
    }

    /** `open(p, "a")` followed by writing `text`. */
    method Append(p: Path, text: string) returns (ok: bool)
      modifies this
      ensures ok == old(CanOpenForWriting(p))
      ensures files == if ok then old(files)[p := old(Content(p)) + text] else old(files)
      ensures dirs == old(dirs)
    {
      ok := CanOpenForWriting(p);
      if ok {
        files := files[p := Content(p) + text];
      }
    }

    /** `p.touch()`: an existing file or directory stays as it is; a missing file
        is created empty when its parent is a directory. */
    method Touch(p: Path) returns (ok: bool)
      modifies this
      ensures ok == old(Exists(p) || CanOpenForWriting(p))
      ensures files == if old(Exists(p)) || !ok then old(files) else old(files)[p := []]
      ensures dirs == old(dirs)
    {
      if Exists(p) {
        ok := true;
      } else {
        ok := CanOpenForWriting(p);
        if ok {
          files := files[p := []];
        }
      }
    }

    /** `p.mkdir(parents=True, exist_ok=True)`: creates `p` and its missing ancestors. */
    method MakeDirs(p: Path) returns (ok: bool)
      modifies this
      ensures ok == old(CanMakeDirs(p))
      ensures dirs == if ok then old(dirs) + Ancestry(p) else old(dirs)
      ensures files == old(files)
    {
      ok := CanMakeDirs(p);
      if ok {
        dirs := dirs + Ancestry(p);
      }
    }
  }
}
