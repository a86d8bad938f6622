/** The simulated file store of lib/storage.ts: an in-memory map from a path to
    the uploaded file's contents, name and type. An upload answers the URL
    "/api/files/" + path; a lookup removes the first occurrence of that prefix
    from what it is given and reads the map there. File contents are an opaque
    byte sequence. */
module BlobStorage {
  import opened Common
  import opened Text

  const FilesPrefix: string := "/api/files/"

  /** What the map holds for a path: the contents, the file name and its type. */
  datatype FileEntry = FileEntry(data: seq<bv8>, name: string, contentType: string)

  /** The URL an upload answers (`/api/files/${path}`). */
  function FileUrl(path: string): (r: string)
    ensures |r| == |FilesPrefix| + |path|
    ensures r[..|FilesPrefix|] == FilesPrefix && r[|FilesPrefix|..] == path
  {
    FilesPrefix + path
  }

  /** `path.replace("/api/files/", "")`: the key a lookup reads. */
  function KeyOf(path: string): (r: string)
    ensures !Contains(path, FilesPrefix) ==> r == path
    ensures Contains(path, FilesPrefix) ==> |r| == |path| - |FilesPrefix|
    ensures forall i: nat :: OccursAt(path, FilesPrefix, i) && (forall j :: 0 <= j < i ==> !OccursAt(path, FilesPrefix, j))
                             ==> r == path[..i] + path[i + |FilesPrefix|..]
  {
    ReplaceFirst(path, FilesPrefix, "")
  }

  /** The URL of an upload leads back to its path: the prefix the lookup
      removes is the one the upload put in front, even when the path itself
      contains the prefix again. */
  lemma UrlRoundTrip(path: string)
    ensures KeyOf(FileUrl(path)) == path
  {
    ReplaceLeadingPattern(FilesPrefix, path);
  }

  /** `getFileFromBlob(path)`: the entry stored under the key, or nothing. */
  function Lookup(files: map<string, FileEntry>, path: string): (r: Option<FileEntry>)
    ensures r.Some? <==> KeyOf(path) in files
    ensures r.Some? ==> r.value == files[KeyOf(path)]
    ensures !Contains(path, FilesPrefix) ==> (r.Some? <==> path in files)
  {
    var key := KeyOf(path);
    if key in files then Some(files[key]) else None
  }

  /** Looking up the URL of an upload finds what was uploaded. */
  lemma UploadThenLookup(files: map<string, FileEntry>, path: string, file: FileEntry)
    ensures Lookup(files[path := file], FileUrl(path)) == Some(file)
  {
    UrlRoundTrip(path);
  }

  /** An upload changes no lookup that reads another key. */
  lemma UploadKeepsOthers(files: map<string, FileEntry>, path: string, file: FileEntry, other: string)
    requires KeyOf(other) != path
    ensures Lookup(files[path := file], other) == Lookup(files, other)
  {
  }

  /** The store itself, the module-level `fileStorage` map. */
  class BlobStore {
    var files: map<string, FileEntry>

    constructor()
      ensures files == map[]
    {
      files := map[];
    }

    /** `uploadToBlob(file, path)`: stores the file under the path, replacing
        what was there, and answers its URL. */
    method Upload(data: seq<bv8>, name: string, contentType: string, path: string) returns (url: string)
      modifies this
      ensures files == old(files)[path := FileEntry(data, name, contentType)]
      ensures url == FileUrl(path)
      ensures Lookup(files, url) == Some(FileEntry(data, name, contentType))
      ensures forall other :: KeyOf(other) != path ==> Lookup(files, other) == Lookup(old(files), other)
    {
      files := files[path := FileEntry(data, name, contentType)];
      url := FilesPrefix + path;
      UploadThenLookup(old(files), path, FileEntry(data, name, contentType));
    }

    /** `getFileFromBlob(path)` on the current map. */
    function GetFile(path: string): (r: Option<FileEntry>)
      reads this
      ensures r.Some? <==> KeyOf(path) in files
      ensures r.Some? ==> r.value == files[KeyOf(path)]
    {
      Lookup(files, path)
    }
  }
}
