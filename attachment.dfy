/** Issue attachments: the pending-upload rows of the attachments table, the files they
    name on the local disk, and the URLs an attachment is downloaded and displayed at. */
module Attachments {
  import opened Php

  // ---------------------------------------------------------------------------
  // Records and storage

  /** One row of `projects_issues_attachments`, as far as `upload` and `remove` touch it. */
  datatype Row = Row(uploadedBy: nat, filename: string, extension: string, size: nat, uploadToken: string)

  /** What the file `UploadedFile::move` left on disk reports about itself: its extension and
      its size. Its name is the one `move` was given. */
  datatype MovedFile = MovedFile(extension: string, size: nat)

  /** The attachments table. */
  class AttachmentTable {
    var rows: seq<Row>

    constructor (rows: seq<Row>)
      ensures this.rows == rows
    {
      this.rows := rows;
    }

    /** The `where(uploaded_by)->where(upload_token)->where(filename)->delete()` query. */
    method DeleteWhere(userId: nat, token: string, filename: string)
      modifies this
      ensures rows == Remaining(old(rows), userId, token, filename)
    {
      rows := Remaining(rows, userId, token, filename);
    }

    /** `save()` of a new record: the row is inserted. */
    method Insert(row: Row)
      modifies this
      ensures rows == old(rows) + [row]
    {
      rows := rows + [row];
    }
  }

  /** The local disk: the absolute paths of its directories and of its files. */
  class Disk {
    var dirs: set<string>
    var files: set<string>

    constructor (dirs: set<string>, files: set<string>)
      ensures this.dirs == dirs && this.files == files
    {
      this.dirs := dirs;
      this.files := files;
    }

    /** `makeDirectory($path, 0777, true)` below the disk root: the directory and, because of
        the recursive flag, every missing parent are created; existing ones are left as they are. */
    method MakeDirectory(root: string, path: string)
      modifies this
      ensures dirs == old(dirs) + DirsOnPath(root, path) && files == old(files)
    {
      dirs := dirs + DirsOnPath(root, path);
    }

    /** `move($dir, $name)`: the uploaded file now lies in `$dir` under the name `$name`. */
    method Move(dir: string, name: string)
      modifies this
      ensures files == old(files) + {FilePath(dir, name)} && dirs == old(dirs)
    {
      files := files + {FilePath(dir, name)};
    }

    /** `deleteFile()`: `@unlink("$path/$filename")` then `@rmdir($path)`. Both silence their
        errors: a missing file is not removed, and a directory that still holds anything stays. */
    method DeleteFile(path: string, filename: string)
      modifies this
      ensures files == old(files) - {FilePath(path, filename)}
      ensures dirs == if DirEmpty(files, old(dirs), path) then old(dirs) - {path} else old(dirs)
    {
      files := files - {FilePath(path, filename)};
      if DirEmpty(files, dirs, path) {
        dirs := dirs - {path};
      }
    }
  }

  /** `"$path/$filename"` */
  function FilePath(path: string, filename: string): string {
    path + "/" + filename
  }

  /** The directories a recursive `makeDirectory(path)` leaves below `root`: every prefix of
      `path` that ends just before a '/', and `path` itself. */
  function DirsOnPath(root: string, path: string): set<string> {
    (set i | 0 < i < |path| && path[i] == '/' :: root + path[..i]) + {root + path}
  }

  /** Nothing on the disk lies below `path`, so `rmdir` can remove it. */
  predicate DirEmpty(files: set<string>, dirs: set<string>, path: string) {
    (forall f :: f in files ==> !(path + "/" <= f)) && (forall d :: d in dirs ==> !(path + "/" <= d))
  }

  // ---------------------------------------------------------------------------
  // Paths

  /** `'/uploads/' . $project->id . '/' . $upload_token`, relative to the disk root. */
  function UploadDirectory(projectId: nat, token: string): string {
    Join(["", "uploads", NatToString(projectId), token])
  }

  /** The directory of a project's upload token is `/uploads/{project id}/{token}`: a token
      without '/' is its last segment, and the project id reads back from the third. */
  lemma UploadDirectoryShape(projectId: nat, token: string)
    requires '/' !in token
    ensures Split(UploadDirectory(projectId, token)) == ["", "uploads", NatToString(projectId), token]
    ensures ParseDigits(Split(UploadDirectory(projectId, token))[2]) == projectId
  {
    NatToStringNoSlash(projectId);
    SplitJoin(["", "uploads", NatToString(projectId), token]);
    ParseNatToString(projectId);
  }

  /** The upload directory written out as one string. */
  lemma UploadDirectoryText(projectId: nat, token: string)
    ensures UploadDirectory(projectId, token) == "/uploads/" + NatToString(projectId) + "/" + token
  {
    var id := NatToString(projectId);
    assert Join([id, token]) == id + "/" + token;
    assert ["uploads", id, token][1..] == [id, token];
    assert Join(["uploads", id, token]) == "uploads" + "/" + (id + "/" + token);
    assert ["", "uploads", id, token][1..] == ["uploads", id, token];
    assert Join(["", "uploads", id, token]) == "" + "/" + ("uploads" + "/" + (id + "/" + token));
  }

  /** Different projects or tokens never share an upload directory, whatever the token holds:
      the decimal project id has no '/', so the first '/' after `/uploads/` ends it. */
  lemma UploadDirectoryInjective(p1: nat, t1: string, p2: nat, t2: string)
    requires UploadDirectory(p1, t1) == UploadDirectory(p2, t2)
    ensures p1 == p2 && t1 == t2
  {
    var s1, s2 := NatToString(p1), NatToString(p2);
    UploadDirectoryText(p1, t1);
    UploadDirectoryText(p2, t2);
    var d1, d2 := "/uploads/" + s1 + "/" + t1, "/uploads/" + s2 + "/" + t2;
    assert d1[9..] == s1 + "/" + t1;
    assert d2[9..] == s2 + "/" + t2;
    NatToStringNoSlash(p1);
    NatToStringNoSlash(p2);
    FirstSegment(s1, t1, s2, t2);
    ParseNatToString(p1);
    ParseNatToString(p2);
  }

  /** A segment without '/' followed by '/' is determined by the string it starts. */
  lemma FirstSegment(a1: string, b1: string, a2: string, b2: string)
    requires '/' !in a1 && '/' !in a2
    requires a1 + "/" + b1 == a2 + "/" + b2
    ensures a1 == a2 && b1 == b2
  {
    var s := a1 + "/" + b1;
    assert s[|a1|] == '/';
    var i := IndexOf(s, '/');
    assert i == |a1| by {
      assert forall j :: 0 <= j < |a1| ==> s[j] == a1[j];
    }
    assert i == |a2| by {
      assert s == a2 + "/" + b2;
      assert s[|a2|] == '/';
      assert forall j :: 0 <= j < |a2| ==> s[j] == a2[j];
    }
    assert a1 == s[..i] == a2;
    assert b1 == s[i + 1..] == b2;
  }

  /** The recursive `makeDirectory` of an upload also creates `/uploads` and
      `/uploads/{project id}` below the root. */
  lemma UploadDirectoryParents(root: string, projectId: nat, token: string)
    ensures var dirs := DirsOnPath(root, UploadDirectory(projectId, token));
      && root + "/uploads" in dirs
      && root + "/uploads/" + NatToString(projectId) in dirs
      && root + UploadDirectory(projectId, token) in dirs
  {
    var id := NatToString(projectId);
    var path := UploadDirectory(projectId, token);
    UploadDirectoryText(projectId, token);
    assert path[8] == '/' && path[..8] == "/uploads";
    assert path[9 + |id|] == '/' && path[..9 + |id|] == "/uploads/" + id;
    assert root + path[..8] in DirsOnPath(root, path);
    assert root + path[..9 + |id|] in DirsOnPath(root, path);
    assert root + "/uploads/" + id == root + ("/uploads/" + id);
  }

  // ---------------------------------------------------------------------------
  // Upload and remove

  /** What `upload` reads from its input: `upload_token` and `Filename`. */
  datatype UploadInput = UploadInput(uploadToken: string, filename: string)

  /** What `remove` reads from its input: `upload_token` and `filename`. */
  datatype RemoveInput = RemoveInput(uploadToken: string, filename: string)

  /** The row `fill()` describes: the uploader, the token and the file name the file was moved
      to (`getFilename()` of the moved file) from the request, extension and size from the
      moved file. */
  function UploadedRow(input: UploadInput, userId: nat, moved: MovedFile): (r: Row)
    ensures r.uploadedBy == userId && r.uploadToken == input.uploadToken && r.filename == input.filename
    ensures r.extension == moved.extension && r.size == moved.size
  {
    Row(userId, input.filename, moved.extension, moved.size, input.uploadToken)
  }

  /** The rows `remove` matches. */
  predicate Matches(r: Row, userId: nat, token: string, filename: string) {
    r.uploadedBy == userId && r.uploadToken == token && r.filename == filename
  }

  /** The table after the delete query: the rows that do not match, in their order. */
  function Remaining(rows: seq<Row>, userId: nat, token: string, filename: string): (rest: seq<Row>)
    ensures |rest| <= |rows|
    ensures forall r :: r in rest <==> r in rows && !Matches(r, userId, token, filename)
  {
    if rows == [] then []
    else
      var init, last := rows[..|rows| - 1], rows[|rows| - 1];
      assert rows == init + [last];
      Remaining(init, userId, token, filename)
        + (if Matches(last, userId, token, filename) then [] else [last])
  }

  /** The delete query acts row by row, so it distributes over concatenation. */
  lemma {:induction false} RemainingAppend(a: seq<Row>, b: seq<Row>, userId: nat, token: string, filename: string)
    ensures Remaining(a + b, userId, token, filename) == Remaining(a, userId, token, filename) + Remaining(b, userId, token, filename)
    decreases |b|
  {
    if b == [] {
      assert a + b == a;
    } else {
      var init := b[..|b| - 1];
      assert (a + b)[..|a + b| - 1] == a + init;
      RemainingAppend(a, init, userId, token, filename);
    }
  }

  /** With no matching row, `remove` deletes nothing (and does not fail). */
  lemma {:induction false} NoMatchRemovesNothing(rows: seq<Row>, userId: nat, token: string, filename: string)
    requires forall r :: r in rows ==> !Matches(r, userId, token, filename)
    ensures Remaining(rows, userId, token, filename) == rows
  {
    if rows != [] {
      var init := rows[..|rows| - 1];
      assert rows == init + [rows[|rows| - 1]];
      NoMatchRemovesNothing(init, userId, token, filename);
    }
  }

  /** Removing twice removes nothing more. */
  lemma RemainingIdempotent(rows: seq<Row>, userId: nat, token: string, filename: string)
    ensures var rest := Remaining(rows, userId, token, filename);
      Remaining(rest, userId, token, filename) == rest
  {
    NoMatchRemovesNothing(Remaining(rows, userId, token, filename), userId, token, filename);
  }

  /** Removing, by the same user, the file an upload stored takes its row back out; the
      table is as before the upload when no earlier row matched. */
  lemma RemoveAfterUpload(rows: seq<Row>, input: UploadInput, userId: nat, moved: MovedFile)
    ensures var row := UploadedRow(input, userId, moved);
      Remaining(rows + [row], userId, input.uploadToken, input.filename) == Remaining(rows, userId, input.uploadToken, input.filename)
    ensures (forall r :: r in rows ==> !Matches(r, userId, input.uploadToken, input.filename)) ==>
      Remaining(rows + [UploadedRow(input, userId, moved)], userId, input.uploadToken, input.filename) == rows
  {
    var row := UploadedRow(input, userId, moved);
    RemainingAppend(rows, [row], userId, input.uploadToken, input.filename);
    assert [row][..0] == [];
    if forall r :: r in rows ==> !Matches(r, userId, input.uploadToken, input.filename) {
      NoMatchRemovesNothing(rows, userId, input.uploadToken, input.filename);
    }
  }

  /** The Eloquent record `upload` fills and saves. */
  class Attachment {
    var uploadedBy: nat
    var filename: string
    var fileextension: string
    var filesize: nat
    var uploadToken: string

    /** A new, empty record. */
    constructor ()
      ensures uploadedBy == 0 && filename == "" && fileextension == "" && filesize == 0 && uploadToken == ""
    {
      uploadedBy := 0;
      filename := "";
      fileextension := "";
      filesize := 0;
      uploadToken := "";
    }

    /** The record's fillable attributes as a table row. */
    function Record(): Row
      reads this
    {
      Row(uploadedBy, filename, fileextension, filesize, uploadToken)
    }

    /** `upload()`: creates `{root}/uploads/{project id}/{token}`, moves the uploaded file
        into it, fills the record from the request and the moved file, and saves it. */
    method Upload(input: UploadInput, projectId: nat, userId: nat, root: string, moved: MovedFile,
                  table: AttachmentTable, disk: Disk) returns (saved: bool)
      modifies this, table, disk
      ensures Record() == UploadedRow(input, userId, moved)
      ensures table.rows == old(table.rows) + [UploadedRow(input, userId, moved)]
      ensures disk.dirs == old(disk.dirs) + DirsOnPath(root, UploadDirectory(projectId, input.uploadToken))
      ensures disk.files == old(disk.files) + {FilePath(root + UploadDirectory(projectId, input.uploadToken), input.filename)}
      ensures saved
    {
      var relativePath := UploadDirectory(projectId, input.uploadToken);
      disk.MakeDirectory(root, relativePath);
      var path := root + relativePath;
      disk.Move(path, input.filename);
      uploadedBy, filename, fileextension, filesize, uploadToken :=
        userId, input.filename, moved.extension, moved.size, input.uploadToken;
      table.Insert(Record());
      saved := true;
    }

    /** `remove()`: deletes the uploader's rows for that token and file name, then the file
        and, when that leaves it empty, the token's directory. */
    method Remove(input: RemoveInput, projectId: nat, userId: nat, root: string,
                  table: AttachmentTable, disk: Disk)
      modifies table, disk
      ensures table.rows == Remaining(old(table.rows), userId, input.uploadToken, input.filename)
      ensures var path := root + UploadDirectory(projectId, input.uploadToken);
        && disk.files == old(disk.files) - {FilePath(path, input.filename)}
        && disk.dirs == if DirEmpty(disk.files, old(disk.dirs), path) then old(disk.dirs) - {path} else old(disk.dirs)
    {
      table.DeleteWhere(userId, input.uploadToken, input.filename);
      var path := root + UploadDirectory(projectId, input.uploadToken);
      disk.DeleteFile(path, input.filename);
    }
  }

  // ---------------------------------------------------------------------------
  // Image check and URLs

  /** `isImage()`: the extension is one of eight spellings, compared case-sensitively. */
  predicate IsImage(extension: string) {
    extension in ["jpg", "jpeg", "JPG", "JPEG", "png", "PNG", "gif", "GIF"]
  }

  /** The image extensions in lower case. */
  predicate LowerImageExtension(extension: string) {
    extension in ["jpg", "jpeg", "png", "gif"]
  }

  /** An extension is an image exactly when it is a jpg, jpeg, png or gif extension written
      wholly in lower case or wholly in upper case; mixed case such as `Jpg` is not. */
  lemma IsImageMeaning(extension: string)
    ensures IsImage(extension) <==>
      LowerImageExtension(ToLower(extension)) && (extension == ToLower(extension) || extension == ToUpper(extension))
  {
    if IsImage(extension) {
      ImageSpellings(extension);
    }
    if LowerImageExtension(ToLower(extension)) && (extension == ToLower(extension) || extension == ToUpper(extension)) {
      if extension != ToLower(extension) {
        UpperLower(extension);
        UpperImages(ToLower(extension));
      }
    }
  }

  lemma ImageSpellings(extension: string)
    requires IsImage(extension)
    ensures LowerImageExtension(ToLower(extension))
    ensures extension == ToLower(extension) || extension == ToUpper(extension)
  {
    if LowerImageExtension(extension) {
      LowerLetters(extension);
    } else {
      var lower := if extension == "JPG" then "jpg" else if extension == "JPEG" then "jpeg"
                   else if extension == "PNG" then "png" else "gif";
      UpperImageSpelling(lower);
      assert extension == ToUpper(lower);
      LowerLetters(lower);
    }
  }

  /** A word of lower-case letters is unchanged by `ToLower`, and `ToLower` undoes `ToUpper` on it. */
  lemma LowerLetters(s: string)
    requires forall i :: 0 <= i < |s| ==> 'a' <= s[i] <= 'z'
    ensures ToLower(s) == s && ToLower(ToUpper(s)) == s && ToUpper(ToUpper(s)) == ToUpper(s)
  {
  }

  lemma UpperImageSpelling(lower: string)
    requires LowerImageExtension(lower)
    ensures forall i :: 0 <= i < |lower| ==> 'a' <= lower[i] <= 'z'
    ensures ToUpper(lower) in ["JPG", "JPEG", "PNG", "GIF"]
  {
    UpperImages(lower);
  }

  lemma UpperLower(s: string)
    ensures ToUpper(ToLower(s)) == ToUpper(s)
  {
  }

  lemma UpperImages(lower: string)
    requires LowerImageExtension(lower)
    ensures ToUpper(lower) == if lower == "jpg" then "JPG" else if lower == "jpeg" then "JPEG"
                              else if lower == "png" then "PNG" else "GIF"
  {
    if lower == "jpg" {
      assert ToUpper(lower) == "JPG";
    } else if lower == "jpeg" {
      assert ToUpper(lower) == "JPEG";
    } else if lower == "png" {
      assert ToUpper(lower) == "PNG";
    } else {
      assert ToUpper(lower) == "GIF";
    }
  }

  /** The path below the site root of an attachment's download (`download`) or inline view
      (`display`): `project/{project id}/issue/{issue id}/{action}/{attachment id}`. */
  function AttachmentPath(projectId: nat, issueId: nat, attachmentId: nat, action: string): string {
    Join(["project", NatToString(projectId), "issue", NatToString(issueId), action, NatToString(attachmentId)])
  }

  /** `download()`; `URL::to` is the parameter `urlTo`. */
  function Download(urlTo: string -> string, projectId: nat, issueId: nat, attachmentId: nat): string {
    urlTo(AttachmentPath(projectId, issueId, attachmentId, "download"))
  }

  /** `display()`; `URL::to` is the parameter `urlTo`. */
  function Display(urlTo: string -> string, projectId: nat, issueId: nat, attachmentId: nat): string {
    urlTo(AttachmentPath(projectId, issueId, attachmentId, "display"))
  }

  /** Each id reads back from its own segment of the path. */
  lemma AttachmentPathShape(projectId: nat, issueId: nat, attachmentId: nat, action: string)
    requires '/' !in action
    ensures var segments := Split(AttachmentPath(projectId, issueId, attachmentId, action));
      && segments == ["project", NatToString(projectId), "issue", NatToString(issueId), action, NatToString(attachmentId)]
      && ParseDigits(segments[1]) == projectId
      && ParseDigits(segments[3]) == issueId
      && ParseDigits(segments[5]) == attachmentId
  {
    NatToStringNoSlash(projectId);
    NatToStringNoSlash(issueId);
    NatToStringNoSlash(attachmentId);
    SplitJoin(["project", NatToString(projectId), "issue", NatToString(issueId), action, NatToString(attachmentId)]);
    ParseNatToString(projectId);
    ParseNatToString(issueId);
    ParseNatToString(attachmentId);
  }

  /** The download and display paths of an attachment differ only in their fifth segment. */
  lemma DownloadDisplayDiffer(projectId: nat, issueId: nat, attachmentId: nat)
    ensures var d := Split(AttachmentPath(projectId, issueId, attachmentId, "download"));
      var v := Split(AttachmentPath(projectId, issueId, attachmentId, "display"));
      && |d| == |v| == 6
      && d[4] == "download" && v[4] == "display"
      && forall i :: 0 <= i < 6 && i != 4 ==> d[i] == v[i]
  {
    AttachmentPathShape(projectId, issueId, attachmentId, "download");
    AttachmentPathShape(projectId, issueId, attachmentId, "display");
  }
}
