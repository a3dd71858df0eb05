/** The generic tree that the entity debug pages display. */
module EntityData {

  datatype Entity = Text(text: string) | Record(entries: seq<Entry>)

  datatype Entry = Entry(name: string, value: Entity)
}
