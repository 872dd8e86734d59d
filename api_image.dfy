/** The image upload endpoint (src/api/image.rs): checks on the multipart form, on the
    image service's reply, and the recording of the uploaded image. */
module ImageApi {
  import opened Values
  import opened AppErrors

  /** A multipart field: its form name, its file name and its body (None when the body
      could not be read). */
  datatype FormField = FormField(name: Option<string>, fileName: Option<string>, bytes: Option<seq<byte>>)

  /** `multipart.next_field()`: an error, no field, or the first field. */
  datatype NextField = FieldError | NoField | Field(field: FormField)

  /** One entry of the image service's `files` list. */
  datatype UploadedFile = UploadedFile(deleteToken: string, file: string)

  /** The image service's reply to an upload. */
  datatype UploadReply = UploadReply(files: seq<UploadedFile>)

  /** A row of the image ledger (`Image`). */
  datatype Image = Image(id: Uuid, deleteToken: Uuid)

  datatype UploadImageResponse = UploadImageResponse(id: Uuid)

  /** What a successful upload produces: the response and the ledger entry recorded. */
  datatype Uploaded = Uploaded(response: UploadImageResponse, entry: Image)

  /** `str::split_once(".")`: the text before and after the first '.'. */
  function SplitOnce(s: string): (r: Option<(string, string)>)
    ensures r.Some? <==> '.' in s
    ensures r.Some? ==> s == r.value.0 + "." + r.value.1 && '.' !in r.value.0
  {
    if s == [] then None
    else if s[0] == '.' then Some(([], s[1..]))
    else match SplitOnce(s[1..])
      case None => None
      case Some((a, b)) => Some(([s[0]] + a, b))
  }

  /** Splitting a join at a dot-free head gives the two parts back. */
  lemma {:induction false} SplitOnceJoin(a: string, b: string)
    requires '.' !in a
    ensures SplitOnce(a + "." + b) == Some((a, b))
  {
    if a != [] {
      assert (a + "." + b)[1..] == a[1..] + "." + b;
      assert a[0] != '.' by { assert a[0] in a; }
      SplitOnceJoin(a[1..], b);
      assert [a[0]] + a[1..] == a;
    } else {
      assert (a + "." + b)[1..] == b;
    }
  }

  /** The form's first field is named "file", has a file name and a readable body. */
  predicate FormAccepted(next: NextField)
  {
    next.Field? && next.field.name == Some("file") && next.field.fileName.Some? && next.field.bytes.Some?
  }

  /** The service reports exactly one stored file whose name has a '.'. */
  predicate ReplyAccepted(upload: Option<UploadReply>)
  {
    upload.Some? && |upload.value.files| == 1 && SplitOnce(upload.value.files[0].file).Some?
  }

  /** The id of the stored file: its name up to the first '.'. */
  function StoredName(upload: Option<UploadReply>): (name: string)
    requires ReplyAccepted(upload)
    ensures '.' !in name
    ensures exists ext :: upload.value.files[0].file == name + "." + ext
  {
    SplitOnce(upload.value.files[0].file).value.0
  }

  /** `upload_image` after the multipart form has arrived. `upload` is the image
      service's reply to posting the field's body under its file name (None when the
      post failed), `parse` is `Uuid::parse_str`, and `ledgerFault` stands for a
      rejected insert into the image ledger. */
  function UploadImage(next: NextField, upload: Option<UploadReply>, parse: string -> Option<Uuid>,
                       ledgerFault: bool): (r: Result<Uploaded>)
    ensures next == FieldError ==> r == Err(BadRequestError("Missing file"))
    ensures next == NoField ==> r == Err(InternalError("Failed to parse form object"))
    ensures next.Field? && next.field.name.None? ==> r == Err(BadRequestError("Bad form field"))
    ensures next.Field? && next.field.name.Some? && next.field.name.value != "file" ==>
              r == Err(BadRequestError("Invalid form body"))
    ensures next.Field? && next.field.name == Some("file") && next.field.fileName.None? ==>
              r == Err(BadRequestError("Invalid file name"))
    ensures next.Field? && next.field.name == Some("file") && next.field.fileName.Some? && next.field.bytes.None? ==>
              r == Err(BadRequestError("Invalid image file"))
    ensures FormAccepted(next) && upload.None? ==> r == Err(BadRequestError("Image upload failed"))
    ensures FormAccepted(next) && upload.Some? && |upload.value.files| != 1 ==>
              r == Err(InternalError("Image upload failed"))
    ensures FormAccepted(next) && upload.Some? && |upload.value.files| == 1
            && '.' !in upload.value.files[0].file ==>
              r == Err(InternalError("Image uploaded failed"))
    ensures FormAccepted(next) && ReplyAccepted(upload)
            && (parse(StoredName(upload)).None? || parse(upload.value.files[0].deleteToken).None?) ==>
              r == Err(InternalError("Image upload failed"))
    ensures r.Ok? <==> FormAccepted(next) && ReplyAccepted(upload) && parse(StoredName(upload)).Some?
                       && parse(upload.value.files[0].deleteToken).Some? && !ledgerFault
    ensures r.Ok? ==> r.value.entry == Image(parse(StoredName(upload)).value, parse(upload.value.files[0].deleteToken).value)
                      && r.value.response.id == r.value.entry.id
    ensures r.Err? && FormAccepted(next) && ReplyAccepted(upload) && parse(StoredName(upload)).Some?
            && parse(upload.value.files[0].deleteToken).Some? ==>
              r == Err(InternalError("Failed to create image entry"))
  {
    match next
    case FieldError => Err(BadRequestError("Missing file"))
    case NoField => Err(InternalError("Failed to parse form object"))
    case Field(field) =>
      if field.name.None? then Err(BadRequestError("Bad form field"))
      else if field.name.value != "file" then Err(BadRequestError("Invalid form body"))
      else if field.fileName.None? then Err(BadRequestError("Invalid file name"))
      else if field.bytes.None? then Err(BadRequestError("Invalid image file"))
      else if upload.None? then Err(BadRequestError("Image upload failed"))
      else if |upload.value.files| != 1 then Err(InternalError("Image upload failed"))
      else
        var stored := upload.value.files[0];
        match SplitOnce(stored.file)
        case None => Err(InternalError("Image uploaded failed"))
        case Some((name, _)) =>
          match parse(name)
          case None => Err(InternalError("Image upload failed"))
          case Some(id) =>
            match parse(stored.deleteToken)
            case None => Err(InternalError("Image upload failed"))
            case Some(deleteToken) =>
              if ledgerFault then Err(InternalError("Failed to create image entry"))
              else
                var entry := Image(id, deleteToken);
                Ok(Uploaded(UploadImageResponse(entry.id), entry))
  }

  /** The id handed back is the one the service gave the stored file: for a stored name
      `<id>.<ext>` where `<id>` parses, a successful upload returns exactly that id. */
  lemma UploadReturnsStoredId(next: NextField, stem: string, ext: string, deleteToken: string,
                              parse: string -> Option<Uuid>)
    requires FormAccepted(next) && '.' !in stem
    requires parse(stem).Some? && parse(deleteToken).Some?
    ensures var r := UploadImage(next, Some(UploadReply([UploadedFile(deleteToken, stem + "." + ext)])), parse, false);
            r.Ok? && r.value.response.id == parse(stem).value
  {
    SplitOnceJoin(stem, ext);
  }
}
