/**
  The request, response and option records of the SDK's public interface.
  Optional properties are `Option`s; `None` is an absent (undefined) property.
 */
module Types {
  import opened Common

  datatype ShortenUrlOptions = ShortenUrlOptions(maxUrlLength: Option<int>, timeout: Option<int>)

  datatype UploadFileOptions = UploadFileOptions(timeout: Option<int>)

  datatype CreatePasteOptions = CreatePasteOptions(
    title: Option<string>,
    description: Option<string>,
    language: Option<string>,
    timeout: Option<int>)

  datatype DeleteOptions = DeleteOptions(timeout: Option<int>)

  datatype UploaderInfo = UploaderInfo(uuid: string, username: string)

  datatype PasteDocument = PasteDocument(
    pasteId: string,
    text: string,
    language: string,
    title: string,
    description: string,
    anonymous: bool,
    onetime: bool,
    deletionKey: string,
    timestamp: string,
    uploader: UploaderInfo,
    domain: string,
    userOnlyDomain: bool)

  datatype ShortenerDocument = ShortenerDocument(
    shortId: string,
    destination: string,
    deletionKey: string,
    timestamp: string,
    user: string)

  datatype ShortenerResponse = ShortenerResponse(
    success: bool,
    message: Option<string>,
    shortendUrl: string,
    deletionUrl: string,
    document: Option<ShortenerDocument>)

  datatype ShortenerRequest = ShortenerRequest(url: string)

  datatype FileUploadResponse = FileUploadResponse(
    success: bool,
    message: Option<string>,
    imageUrl: Option<string>,
    rawUrl: Option<string>,
    deletionUrl: Option<string>,
    error: Option<string>)

  datatype PasteResponse = PasteResponse(
    success: bool,
    message: Option<string>,
    pasteUrl: string,
    rawUrl: Option<string>,
    deletionUrl: string,
    document: Option<PasteDocument>)

  /** The JSON body of a paste creation: exactly these four fields. */
  datatype CreatePasteRequest = CreatePasteRequest(
    text: string,
    title: string,
    description: string,
    language: string)

  datatype DeleteResponse = DeleteResponse(success: bool, message: string, error: Option<string>)
}
