/** The storage layer (FileStorageService), over an abstract filesystem.

    The disk below the storage root is a map from (subdirectory, filename) to
    the file's bytes, plus the set of subdirectories that exist. Writes that
    the filesystem refuses (permission denied, disk full, ...) are given as a
    fixed set of entries, `unwritable`. The model does not follow a filename
    through the real directory tree: a name that is not a plain name of a
    file inside the subdirectory ("", ".", "..", anything holding '/') is
    refused, where the real filesystem would open whatever file the path
    reaches, possibly in another subdirectory or outside the root. */
module Storage {
  import opened Wrappers
  import opened Errors
  import opened Base64

  /** StoragePropertiesConfig.getLocation(): the storage root. */
  const Location: string := "files"

  /** (subdirectory, filename). */
  type Key = (string, string)

  /** An uploaded multipart file: its original filename (which may be null)
      and its content. */
  datatype Upload = Upload(originalFilename: Option<string>, bytes: seq<Byte>)
  {
    /** MultipartFile.isEmpty(): the upload has no content. */
    predicate IsEmpty() {
      |bytes| == 0
    }
  }

  /** A file served back to a client: its resolved path and content. */
  datatype Resource = Resource(path: string, contents: seq<Byte>)

  /** A name that opens a regular file directly inside a subdirectory. The
      empty name and "." denote the subdirectory itself, ".." its parent, and
      a name holding '/' a nested directory, which this model never creates:
      opening any of these for writing fails. */
  predicate IsPlainName(name: string) {
    name != "" && name != "." && name != ".." && '/' !in name
  }

  /** `Path.of(root, subdirectory)`. */
  function SubdirectoryPath(subdirectory: string): string {
    Location + "/" + subdirectory
  }

  /** `load`: `Path.of(root, subdirectory).resolve(filename)`. An absolute
      name replaces the subdirectory's path, the empty name leaves it as it
      is, and any other name is appended after a separator exactly as given:
      nothing is rejected, and ".." segments are kept rather than resolved. */
  function Resolve(subdirectory: string, filename: string): (path: string)
    ensures filename != "" && filename[0] == '/' ==> path == filename
    ensures filename == "" ==> path == SubdirectoryPath(subdirectory)
    ensures filename != "" && filename[0] != '/' ==>
              var dir := SubdirectoryPath(subdirectory);
              && |path| == |dir| + 1 + |filename|
              && path[..|dir| + 1] == dir + "/"
    ensures path[|path| - |filename|..] == filename
  {
    if filename == "" then SubdirectoryPath(subdirectory)
    else if filename[0] == '/' then filename
    else SubdirectoryPath(subdirectory) + "/" + filename
  }

  /** The path of `new File(new File(root, subdirectory), name)`, as the
      IOException of a failed open names it. */
  function FilePath(subdirectory: string, name: string): string {
    SubdirectoryPath(subdirectory) + "/" + name
  }

  datatype Disk = Disk(files: map<Key, seq<Byte>>, directories: set<string>)
  {
    /** Every file sits, under a plain name, in a subdirectory that exists. */
    ghost predicate Valid() {
      forall k | k in files :: k.0 in directories && IsPlainName(k.1)
    }
  }

  /** Two disks hold the same entry (or none) at `k`. */
  ghost predicate SameEntry(a: map<Key, seq<Byte>>, b: map<Key, seq<Byte>>, k: Key) {
    (k in a <==> k in b) && (k in a ==> a[k] == b[k])
  }

  /** Whether the filesystem lets `subdirectory/name` be opened for writing. */
  predicate CanWrite(unwritable: set<Key>, subdirectory: string, name: string) {
    IsPlainName(name) && (subdirectory, name) !in unwritable
  }

  /** Whether storing `upload` in `subdirectory` goes through: it has a
      filename and the filesystem lets that file be written. */
  predicate CanStore(unwritable: set<Key>, upload: Upload, subdirectory: string) {
    upload.originalFilename.Some? && CanWrite(unwritable, subdirectory, upload.originalFilename.value)
  }

  /** `new FileOutputStream(new File(directory, name)).write(bytes)`: the
      entry is replaced, or, when the subdirectory is missing or the file
      cannot be opened, nothing happens and an IOException names the path. */
  function WriteFile(d: Disk, unwritable: set<Key>, subdirectory: string, name: string, bytes: seq<Byte>)
    : (r: (Disk, Outcome<Error>))
    ensures r.0.directories == d.directories
    ensures r.1.Pass? <==> subdirectory in d.directories && CanWrite(unwritable, subdirectory, name)
    ensures r.1.Pass? ==> r.0.files == d.files[(subdirectory, name) := bytes]
    ensures r.1.Fail? ==> r.0.files == d.files && r.1.error == IOException(FilePath(subdirectory, name))
    ensures d.Valid() ==> r.0.Valid()
  {
    if subdirectory in d.directories && CanWrite(unwritable, subdirectory, name) then
      (Disk(d.files[(subdirectory, name) := bytes], d.directories), Pass)
    else
      (d, Fail(IOException(FilePath(subdirectory, name))))
  }

  /** `encodeFileToBase64`: read the whole file back and encode it. */
  function ReadBase64(d: Disk, file: Key): (r: Result<string, Error>)
    ensures r.Success? <==> file in d.files
    ensures r.Success? ==> Decode(r.value) == d.files[file]
  {
    if file in d.files then
      DecodeEncode(d.files[file]);
      Success(Encode(d.files[file]))
    else
      Failure(IOException(FilePath(file.0, file.1)))
  }

  /** `getMultipartFileInBase64`: create the subdirectory if needed, require a
      filename, write the upload under it and return the base64 of what was
      stored. The subdirectory is created even when the filename is missing. */
  function StoreUpload(d: Disk, unwritable: set<Key>, upload: Upload, subdirectory: string)
    : (r: (Disk, Result<string, Error>))
    ensures r.0.directories == d.directories + {subdirectory}
    ensures upload.originalFilename.None? ==> r.0.files == d.files && r.1 == Failure(NullPointerException)
    ensures r.1.Success? <==> CanStore(unwritable, upload, subdirectory)
    ensures r.1.Success? ==>
              && r.0.files == d.files[(subdirectory, upload.originalFilename.value) := upload.bytes]
              && r.1.value == Encode(upload.bytes)
              && Decode(r.1.value) == r.0.files[(subdirectory, upload.originalFilename.value)]
    ensures r.1.Failure? ==> r.0.files == d.files
    ensures r.1.Failure? && upload.originalFilename.Some? ==>
              r.1.error == IOException(FilePath(subdirectory, upload.originalFilename.value))
    ensures d.Valid() ==> r.0.Valid()
  {
    var d1 := Disk(d.files, d.directories + {subdirectory});
    match upload.originalFilename
    case None => (d1, Failure(NullPointerException))
    case Some(name) =>
      var (d2, written) := WriteFile(d1, unwritable, subdirectory, name, upload.bytes);
      if written.Fail? then (d2, Failure(written.error))
      else (d2, ReadBase64(d2, (subdirectory, name)))
  }

  /** `saveFileFromBase64`: decode, create the subdirectory if needed and write
      the bytes at (subdirectory, fileName), replacing any earlier content. */
  function SaveFromBase64(d: Disk, unwritable: set<Key>, imageBase64: string, subdirectory: string, fileName: string)
    : (r: (Disk, Outcome<Error>))
    ensures r.0.directories == d.directories + {subdirectory}
    ensures r.1.Pass? <==> CanWrite(unwritable, subdirectory, fileName)
    ensures r.1.Pass? ==> r.0.files == d.files[(subdirectory, fileName) := Decode(imageBase64)]
    ensures r.1.Fail? ==> r.0.files == d.files && r.1.error == IOException(FilePath(subdirectory, fileName))
    ensures forall k :: k != (subdirectory, fileName) ==> SameEntry(d.files, r.0.files, k)
    ensures d.Valid() ==> r.0.Valid()
  {
    var decoded := Decode(imageBase64);
    WriteFile(Disk(d.files, d.directories + {subdirectory}), unwritable, subdirectory, fileName, decoded)
  }

  /** `loadAll`, as a set: the names of the files in the subdirectory,
      relative to it, or the storage error for a missing subdirectory. */
  function Listing(d: Disk, subdirectory: string): (r: Result<set<string>, Error>)
    ensures r.Failure? <==> subdirectory !in d.directories
    ensures r.Failure? ==> r.error == StorageException("Failed to read stored files")
    ensures r.Success? ==> forall name :: name in r.value <==> (subdirectory, name) in d.files
  {
    if subdirectory !in d.directories then Failure(StorageException("Failed to read stored files"))
    else Success(set k | k in d.files && k.0 == subdirectory :: k.1)
  }

  /** After a successful store, listing that subdirectory shows the file. */
  lemma StoredFileIsListed(d: Disk, unwritable: set<Key>, upload: Upload, subdirectory: string)
    requires StoreUpload(d, unwritable, upload, subdirectory).1.Success?
    ensures var l := Listing(StoreUpload(d, unwritable, upload, subdirectory).0, subdirectory);
            l.Success? && upload.originalFilename.value in l.value
  {
  }

  /** After a successful save, listing that subdirectory shows the file. */
  lemma SavedFileIsListed(d: Disk, unwritable: set<Key>, imageBase64: string, subdirectory: string, fileName: string)
    requires SaveFromBase64(d, unwritable, imageBase64, subdirectory, fileName).1.Pass?
    ensures var l := Listing(SaveFromBase64(d, unwritable, imageBase64, subdirectory, fileName).0, subdirectory);
            l.Success? && fileName in l.value
  {
  }

  /** The listing never yields the subdirectory itself (whose path relative to
      itself is empty) nor anything but a plain name one level down. */
  lemma ListingExcludesSubdirectory(d: Disk, subdirectory: string)
    requires d.Valid()
    requires Listing(d, subdirectory).Success?
    ensures "" !in Listing(d, subdirectory).value
    ensures forall name :: name in Listing(d, subdirectory).value ==> IsPlainName(name)
  {
  }

  /** The storage service: the disk as mutable state. */
  class FileStorageService {
    const unwritable: set<Key>
    var files: map<Key, seq<Byte>>
    var directories: set<string>

    function State(): Disk
      reads this
    {
      Disk(files, directories)
    }

    ghost predicate Valid()
      reads this
    {
      State().Valid()
    }

    constructor (unwritable: set<Key>)
      ensures Valid() && this.unwritable == unwritable
      ensures files == map[] && directories == {}
    {
      this.unwritable := unwritable;
      files := map[];
      directories := {};
    }

    /** `mkdirs` when the subdirectory is absent. */
    method MakeDirectory(subdirectory: string)
      requires Valid()
      modifies this
      ensures Valid()
      ensures files == old(files) && directories == old(directories) + {subdirectory}
    {
      if subdirectory !in directories {
        directories := directories + {subdirectory};
      }
    }

    /** Open `subdirectory/name` for writing and write all of `bytes`. */
    method Write(subdirectory: string, name: string, bytes: seq<Byte>) returns (r: Outcome<Error>)
      requires Valid()
      modifies this
      ensures Valid()
      ensures (State(), r) == WriteFile(old(State()), unwritable, subdirectory, name, bytes)
    {
      if subdirectory !in directories || !CanWrite(unwritable, subdirectory, name) {
        return Fail(IOException(FilePath(subdirectory, name)));
      }
      files := files[(subdirectory, name) := bytes];
      r := Pass;
    }

    /** `getMultipartFileInBase64`. */
    method GetMultipartFileInBase64(upload: Upload, subdirectory: string) returns (r: Result<string, Error>)
      requires Valid()
      modifies this
      ensures Valid()
      ensures (State(), r) == StoreUpload(old(State()), unwritable, upload, subdirectory)
    {
      var file := ConvertMultipartFileToFile(upload, subdirectory);
      if file.Failure? {
        return Failure(file.error);
      }
      r := EncodeFileToBase64(file.value);
    }

    /** `convertMultipartFileToFile`: store the upload under its original
      filename; the subdirectory is created before the filename is checked. */
    method ConvertMultipartFileToFile(upload: Upload, subdirectory: string) returns (r: Result<Key, Error>)
      requires Valid()
      modifies this
      ensures Valid()
      ensures directories == old(directories) + {subdirectory}
      ensures upload.originalFilename.None? ==> r == Failure(NullPointerException) && files == old(files)
      ensures upload.originalFilename.Some? ==>
                var (d, written) := WriteFile(Disk(old(files), directories), unwritable, subdirectory,
                                              upload.originalFilename.value, upload.bytes);
                && files == d.files
                && (written.Pass? ==> r == Success((subdirectory, upload.originalFilename.value)))
                && (written.Fail? ==> r == Failure(written.error))
    {
      MakeDirectory(subdirectory);
      if upload.originalFilename.None? {
        return Failure(NullPointerException);
      }
      var name := upload.originalFilename.value;
      var written := Write(subdirectory, name, upload.bytes);
      if written.Fail? {
        return Failure(written.error);
      }
      r := Success((subdirectory, name));
    }

    /** `encodeFileToBase64`: the base64 text of the whole stored file. */
    method EncodeFileToBase64(file: Key) returns (r: Result<string, Error>)
      ensures file in files ==> r == Success(Encode(files[file]))
      ensures file in files ==> Decode(r.value) == files[file]
      ensures file !in files ==> r == Failure(IOException(FilePath(file.0, file.1)))
    {
      if file !in files {
        return Failure(IOException(FilePath(file.0, file.1)));
      }
      var bytes := files[file];
      DecodeEncode(bytes);
      r := Success(Encode(bytes));
    }

    /** `saveFileFromBase64`. */
    method SaveFileFromBase64(imageBase64: string, subdirectory: string, fileName: string) returns (r: Outcome<Error>)
      requires Valid()
      modifies this
      ensures Valid()
      ensures (State(), r) == SaveFromBase64(old(State()), unwritable, imageBase64, subdirectory, fileName)
    {
      var decodedBytes := Decode(imageBase64);
      MakeDirectory(subdirectory);
      r := Write(subdirectory, fileName, decodedBytes);
    }

    /** `loadAll`: every file of the subdirectory once, relative to it, in an
      order the model leaves open (the directory walk's order). */
    method LoadAll(subdirectory: string) returns (r: Result<seq<string>, Error>)
      requires Valid()
      ensures subdirectory !in directories ==> r == Failure(StorageException("Failed to read stored files"))
      ensures subdirectory in directories ==> r.Success?
      ensures r.Success? ==> forall name :: name in r.value <==> (subdirectory, name) in files
      ensures r.Success? ==> forall i, j :: 0 <= i < j < |r.value| ==> r.value[i] != r.value[j]
      ensures r.Success? ==> "" !in r.value
      ensures r.Success? <==> Listing(State(), subdirectory).Success?
      ensures r.Success? ==> (set name | name in r.value) == Listing(State(), subdirectory).value
    {
      if subdirectory !in directories {
        return Failure(StorageException("Failed to read stored files"));
      }
      var remaining := set k | k in files && k.0 == subdirectory :: k.1;
      ghost var all := remaining;
      var names: seq<string> := [];
      while remaining != {}
        invariant remaining <= all
        invariant forall name :: name in all <==> name in remaining || name in names
        invariant forall name :: name in names ==> name !in remaining
        invariant forall i, j :: 0 <= i < j < |names| ==> names[i] != names[j]
        decreases |remaining|
      {
        var name :| name in remaining;
        names := names + [name];
        remaining := remaining - {name};
      }
      r := Success(names);
    }

    /** `loadAsResource`: the entry at `root/subdirectory/filename`, or not-found. */
    method LoadAsResource(subdirectory: string, filename: string) returns (r: Result<Resource, Error>)
      ensures r.Success? <==> (subdirectory, filename) in files
      ensures r.Success? ==> r.value == Resource(Resolve(subdirectory, filename), files[(subdirectory, filename)])
      ensures r.Failure? ==> r.error == StorageFileNotFoundException("Could not read file: " + filename)
    {
      var path := Resolve(subdirectory, filename);
      if (subdirectory, filename) in files {
        return Success(Resource(path, files[(subdirectory, filename)]));
      }
      r := Failure(StorageFileNotFoundException("Could not read file: " + filename));
    }
  }
}
