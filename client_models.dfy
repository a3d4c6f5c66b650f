/** The records the front end receives from the API and the files it keeps
    pending before an upload (frontend/src/client/models.ts), reduced to the
    fields the modelled components read. */
module ClientModels {
  import opened Common

  /** A post's `images` as the list screens meet it: an array of URLs, one
      string, or null. */
  datatype ImagesField = ImageArray(urls: seq<string>) | ImageText(text: string) | NoImages

  datatype ItemPublic = ItemPublic(id: Uuid, title: string, category: string, ownerId: Uuid)

  datatype PostPublic = PostPublic(id: Uuid, position: int, title: string, content: string,
                                   images: ImagesField, status: bool, ownerId: Uuid)

  datatype UserPublic = UserPublic(id: Uuid, fullName: string, email: string,
                                   isActive: bool, isAdmin: bool, isSuperUser: bool)

  /** A browser `File`, kept abstract. */
  type FileRef = nat

  /** A chosen file waiting for upload: its name and the file itself. */
  datatype FileDetail = FileDetail(name: string, file: FileRef)

  /** `files.map((f) => f.file)`: what is sent for the pending list. */
  function FileRefs(files: seq<FileDetail>): (r: seq<FileRef>)
    ensures |r| == |files|
    ensures forall i :: 0 <= i < |files| ==> r[i] == files[i].file
  {
    seq(|files|, i requires 0 <= i < |files| => files[i].file)
  }

  /** The sent list follows concatenation, so appending files appends their refs. */
  lemma FileRefsAppend(a: seq<FileDetail>, b: seq<FileDetail>)
    ensures FileRefs(a + b) == FileRefs(a) + FileRefs(b)
  {
  }
}
