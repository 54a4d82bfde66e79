/** A directory of files, by path, each holding one value: the checkpoint
    files `torch.save` writes and `torch.load` reads, and the JSON result files
    `json.dump` writes and `json.load` reads. Writing replaces whatever a path
    held; reading a missing path raises. */
module Storage {
  import opened Wrappers

  datatype LoadError = FileNotFound(path: string)

  class FileStore<V> {
    var files: map<string, V>

    constructor (initial: map<string, V>)
      ensures files == initial
    {
      files := initial;
    }

    /** `os.path.isfile(path)`. */
    method IsFile(path: string) returns (present: bool)
      ensures present <==> path in files
    {
      present := path in files;
    }

    /** `torch.load(path)` or `json.load(open(path))`. */
    method Load(path: string) returns (r: Result<V, LoadError>)
      ensures path in files ==> r == Success(files[path])
      ensures path !in files ==> r == Failure(FileNotFound(path))
    {
      if path in files {
        r := Success(files[path]);
      } else {
        r := Failure(FileNotFound(path));
      }
    }

    /** `torch.save(content, path)` or `json.dump(content, open(path, 'w'))`:
        `path` now holds `content`, every other file is as it was. */
    method Save(path: string, content: V)
      modifies this
      ensures files == old(files)[path := content]
    {
      files := files[path := content];
    }
  }
}
