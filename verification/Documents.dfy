/** JSON documents as they are put together: rendered by Rejection, searched by Material. The part of
    JSON that is parsed as well, and its canonical print, are in Json. */
module Documents {
  /** A number is the text that stands for it. */
  datatype Node =
    | Null
    | Flag(on: bool)
    | Number(digits: string)
    | Text(text: string)
    | List(items: seq<Node>)
    | Record(fields: seq<Field>)

  datatype Field = Field(name: string, value: Node)
}
