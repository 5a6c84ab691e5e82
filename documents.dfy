/** Stored documents: JSON objects that carry a string `id`. */
module Documents {
  import opened Json

  predicate IsDocument(v: Value)
  {
    v.Obj? && Lookup(v.fields, "id").Str?
  }

  type Document = v: Value | IsDocument(v) witness Obj([("id", Str(""))])

  /** `document.id`. */
  function Id(document: Document): string
  {
    Lookup(document.fields, "id").s
  }
}
