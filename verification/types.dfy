/** The records shared by the editor, the storage adapter and the panels (types.ts). */
module Types {

  datatype Option<+T> = None | Some(value: T)

  /** A note. `updatedAt` is optional: the seeded welcome note has none. */
  datatype NoteEntry = NoteEntry(
    id: string,
    content: string,
    createdAt: int,
    snippet: string,
    updatedAt: Option<int>)

  datatype FontType = Sans | Lato | Serif | Mono

  datatype Theme = Light | Dark

  datatype AppSettings = AppSettings(
    fontSize: int,
    fontFamily: FontType,
    theme: Theme,
    isZenMode: bool)

  /** The signed-in identity handed to the shell. */
  datatype User = User(
    uid: string,
    email: Option<string>,
    displayName: Option<string>,
    photoURL: Option<string>)

  /** JavaScript truthiness of a `string | null` value: `null` and `""` are falsy. */
  predicate Truthy(s: Option<string>) {
    s.Some? && s.value != ""
  }
}
