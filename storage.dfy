/**
  The local filesystem as the core sees it: files are paths mapped to their
  bytes (`os.path.exists(p)` is `p in files`), and a file handle that is open
  until closed.
 */
module Storage {
  import opened Bytes

  class Disk {
    var files: map<string, seq<byte>>

    constructor (files: map<string, seq<byte>>)
      ensures this.files == files
    {
      this.files := files;
    }

    /** `open(path, 'wb')`: creates the file or truncates it. */
    method Create(path: string)
      modifies this
      ensures files == old(files)[path := []]
    {
      files := files[path := []];
    }

    /** `f.write(data)` on a file opened for writing. */
    method Append(path: string, data: seq<byte>)
      requires path in files
      modifies this
      ensures files == old(files)[path := old(files)[path] + data]
    {
      files := files[path := files[path] + data];
    }

    /** `with open(path, 'wb') as f: f.write(data)`. */
    method WriteAll(path: string, data: seq<byte>)
      modifies this
      ensures files == old(files)[path := data]
    {
      Create(path);
      Append(path, data);
      assert [] + data == data;
    }
  }

  /** A handle returned by `open(path, 'rb')`. */
  class FileHandle {
    const path: string
    var isOpen: bool

    constructor Open(path: string)
      ensures this.path == path && isOpen
    {
      this.path := path;
      isOpen := true;
    }

    method Close()
      modifies this
      ensures !isOpen
    {
      isOpen := false;
    }
  }
}
