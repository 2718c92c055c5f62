/** The tag table of `LSOFParser.kt` (`Field`); the older `Col` table of
    `Main.kt` has the same six tags, so both revisions use this one. */
module Fields {
  import opened Strings

  datatype Field = Command | Pid | User | File | Type | Name

  /** The one-character prefix of each field's lines. */
  function Prefix(f: Field): char {
    match f
    case Command => 'c'
    case Pid => 'p'
    case User => 'u'
    case File => 'f'
    case Type => 't'
    case Name => 'n'
  }

  /** `Field.fromPrefix`: the field whose prefix is `c`, if any. */
  function FromPrefix(c: char): (r: Option<Field>)
    ensures forall f :: r == Some(f) <==> Prefix(f) == c
  {
    match c
    case 'c' => Some(Command)
    case 'p' => Some(Pid)
    case 'u' => Some(User)
    case 'f' => Some(File)
    case 't' => Some(Type)
    case 'n' => Some(Name)
    case _ => None
  }

  /** The tag character of a line; an empty line reads as `'0'`, which is no
      field's prefix. */
  function LinePrefix(line: string): (c: char)
    ensures line == [] ==> FromPrefix(c) == None
    ensures line != [] ==> c == line[0]
  {
    if line != [] then line[0] else '0'
  }

  /** The text after the tag, `""` for a line of one character or none. */
  function LineValue(line: string): (v: string)
    ensures |line| > 1 ==> [line[0]] + v == line
    ensures |line| <= 1 ==> v == ""
  {
    if |line| > 1 then line[1..] else ""
  }
}
