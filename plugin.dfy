/**
 * The plugin record (plugin.go), the store it comes from (store.go) and the
 * context every Manager operation receives.
 */
module Plugin {
  import opened Outcomes

  newtype Byte = b: int | 0 <= b < 256

  /**
   * A plugin's content delivered as an io.Reader: the bytes it yields, how many
   * the first Read returns, whether that Read fails, whether the reader also
   * implements io.Seeker and whether seeking back fails, and whether
   * encoding/json can marshal its concrete type.
   */
  datatype Reader = Reader(data: seq<Byte>, firstRead: nat, readFails: bool,
                           seekable: bool, seekFails: bool, encodable: bool)

  /** The dynamic type of Info.Content. */
  datatype Content =
    | Text(text: seq<Byte>)        // a Go string
    | Blob(bytes: seq<Byte>)       // a []byte
    | Stream(reader: Reader)       // an io.Reader
    | Unsupported                  // any other value
    | Absent                       // nil

  /** Info (plugin.go): the metadata of one plugin. */
  datatype Info = Info(name: string, fileName: string, version: string, description: string,
                       store: string, runtime: string, metadata: map<string, string>,
                       status: string, content: Content)

  /** The record metadata.json holds for `i`: the model drops the content field when it saves a record. */
  function Stored(i: Info): Info {
    i.(content := Absent)
  }

  /** Whether json.MarshalIndent accepts the record. */
  predicate Encodable(i: Info) {
    !(i.content.Stream? && !i.content.reader.encodable) && !i.content.Unsupported?
  }

  /** The query Store.Search receives. */
  type SearchOptions = map<string, string>

  /**
   * The Store interface (store.go) as an oracle: what Fetch returns for a name and
   * version (None for an error) and what Search returns for a query.
   */
  datatype Store = Store(fetch: (string, string) -> Option<Info>,
                         search: SearchOptions -> Option<seq<Info>>)

  /**
   * A context.Context. Cancellation is observed by ctx.Err() checks; each
   * operation numbers its checks from 0, and the k-th check reports
   * cancellation when the deadline is at most k (once reported, it stays).
   */
  datatype Context = Context(deadline: Option<nat>)

  predicate Cancelled(ctx: Context, k: nat) {
    ctx.deadline.Some? && ctx.deadline.value <= k
  }
}
