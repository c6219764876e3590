/** JSON values as the runtime holds them once parsed; the keys of an object are distinct. */
module JsonValues {
  datatype Json = Null | Bool(b: bool) | Number(n: real) | Text(s: string) | List(items: seq<Json>) | Object(fields: seq<Field>)

  datatype Field = Field(key: string, value: Json)
}
