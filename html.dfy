/**
 The tokens that the HTML tokenizer hands to the crawler. The tokenizer itself
 is not modelled: a page is given as the sequence of tokens it would produce.
 */
module Html {

  /** One `key="val"` attribute of a tag. */
  datatype Attribute = Attribute(key: string, val: string)

  /**
   The token kinds of the tokenizer. `name` is the tag name (the token's data
   for tags) and `attrs` its attributes in document order. `Error` is what
   the tokenizer returns at the end of the document or when reading the body
   fails; the two are not told apart.
   */
  datatype Token =
    | StartTag(name: string, attrs: seq<Attribute>)
    | EndTag(name: string)
    | SelfClosingTag(name: string, attrs: seq<Attribute>)
    | Text(data: string)
    | Comment(data: string)
    | Doctype(data: string)
    | Error
}
