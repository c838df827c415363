/**
  The content blocks of the first version of the agent client protocol. The
  schema may grow: `Future` stands for any variant the adapter does not know.
 */
module ContentV1 {
  import opened Wrappers

  /** A JSON object that is carried along unread. */
  type Meta = string

  type I64 = x: int | -0x8000_0000_0000_0000 <= x < 0x8000_0000_0000_0000

  datatype Role = Assistant | User | FutureRole

  datatype Annotations = Annotations(
    audience: Option<seq<Role>>, lastModified: Option<string>, priority: Option<real>, meta: Option<Meta>)

  datatype Embedded =
    | TextResource(text: string, uri: string, mimeType: Option<string>, meta: Option<Meta>)
    | BlobResource(blob: string, uri: string, mimeType: Option<string>, meta: Option<Meta>)
    | FutureResource

  datatype Block =
    | Text(text: string, annotations: Option<Annotations>, meta: Option<Meta>)
    | Image(data: string, mimeType: string, uri: Option<string>, annotations: Option<Annotations>, meta: Option<Meta>)
    | Audio(data: string, mimeType: string, annotations: Option<Annotations>, meta: Option<Meta>)
    | ResourceLink(
        name: string, target: string, title: Option<string>, description: Option<string>, targetType: Option<string>,
        size: Option<I64>, annotations: Option<Annotations>, meta: Option<Meta>)
    | Resource(resource: Embedded, annotations: Option<Annotations>, meta: Option<Meta>)
    | FutureBlock

  datatype PromptRequest = PromptRequest(sessionId: string, prompt: seq<Block>, meta: Option<Meta>)
}

/** The content blocks of the second version: custom roles and blocks, icons, unsigned sizes. */
module ContentV2 {
  import opened Wrappers

  type Meta = string

  type U64 = x: int | 0 <= x < 0x1_0000_0000_0000_0000

  datatype Role = Assistant | User | Other(name: string) | FutureRole

  datatype Annotations = Annotations(
    audience: Option<seq<Role>>, lastModified: Option<string>, priority: Option<real>, meta: Option<Meta>)

  datatype MediaType = MediaType(name: string)

  datatype Icon = Icon(src: string)

  datatype Embedded =
    | TextResource(text: string, uri: string, mimeType: Option<MediaType>, meta: Option<Meta>)
    | BlobResource(blob: string, uri: string, mimeType: Option<MediaType>, meta: Option<Meta>)
    | FutureResource

  datatype Block =
    | Text(text: string, annotations: Option<Annotations>, meta: Option<Meta>)
    | Image(
        data: string, mimeType: MediaType, uri: Option<string>, annotations: Option<Annotations>, meta: Option<Meta>)
    | Audio(data: string, mimeType: MediaType, annotations: Option<Annotations>, meta: Option<Meta>)
    | ResourceLink(
        name: string, target: string, title: Option<string>, description: Option<string>, targetType: Option<MediaType>,
        size: Option<U64>, icons: Option<seq<Icon>>, annotations: Option<Annotations>, meta: Option<Meta>)
    | Resource(resource: Embedded, annotations: Option<Annotations>, meta: Option<Meta>)
    | Other(kind: string, payload: Meta)
    | FutureBlock

  datatype PromptRequest = PromptRequest(sessionId: string, prompt: seq<Block>, meta: Option<Meta>)
}
