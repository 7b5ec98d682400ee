/** The application's records (types.ts). Times are milliseconds since the epoch. */
module Types {
  import opened Utf16

  /** Who wrote a chat message: the person typing, or the model. */
  datatype Role = User | Model

  /** One chat message. `content` is empty while the reply is still streaming in. */
  datatype Message = Message(id: Str, role: Role, content: Str, timestamp: int)

  /** A saved conversation. */
  datatype ChatSession = ChatSession(id: Str, title: Str, messages: seq<Message>, date: Str)

  /** The assessment form: what the teacher records about one child. */
  datatype AssessmentData = AssessmentData(
    childName: Str,
    childAge: int,
    childGender: Str,
    sleep: Str,
    electronics: Str,
    peerRel: Str,
    concerns: seq<Str>,
    photo: Str,
    notes: Str,
    details: Str)

  /** A generated story, split into its parts. */
  datatype StoryData = StoryData(title: Str, content: Str, moral: seq<Str>)

  datatype ResourceType = Guide | Activity | Technique | Tool

  datatype AgeRange = AllAges | Teen | Kid

  /** One entry of the fixed catalogue of reading material. */
  datatype Resource = Resource(id: nat, title: Str, tags: seq<Str>, kind: ResourceType, age: AgeRange, content: Str)
}
