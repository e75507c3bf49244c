/** The shape of a Confluence content record, as the publisher builds and sends it. */
module Content {

  datatype Option<T> = None | Some(value: T)

  /** JavaScript truthiness of a `string | null` value: neither null nor the empty string. */
  predicate Truthy(s: Option<string>)
  {
    s.Some? && s.value != ""
  }

  /** A reference to a parent page; the publisher only ever sends a single one. */
  datatype Ancestor = Ancestor(id: string)

  /** `body.storage`: the page content and the name of its encoding. */
  datatype Storage = Storage(value: string, representation: string)

  /**
   * A page. `id` and `version` are assigned by the store and absent from a page
   * that has not been created yet; `ancestors` is absent or a one-element list.
   * The `type` field of the record is called `kind` here.
   */
  datatype Page = Page(
    id: Option<string>,
    kind: string,
    title: string,
    spaceKey: string,
    ancestors: Option<Ancestor>,
    body: Storage,
    version: Option<nat>)
}
