/** The `EditorType` enumeration, src/Preset/EditorType.php, and its case-insensitive parser. */
module EditorTypes {
  import opened Wrappers

  /** The five editor types. */
  datatype EditorType = Classic | Inline | Balloon | Decoupled | Multiroot

  /** The backing value of each case. */
  function Value(t: EditorType): string {
    match t
    case Classic => "classic"
    case Inline => "inline"
    case Balloon => "balloon"
    case Decoupled => "decoupled"
    case Multiroot => "multiroot"
  }

  /** No two cases share a backing value. */
  lemma ValuesDistinct(a: EditorType, b: EditorType)
    ensures Value(a) == Value(b) <==> a == b
  {
  }

  /** `strtolower` on one byte: only the ASCII capitals change. */
  function LowerChar(c: char): (r: char)
    ensures 'A' <= c <= 'Z' ==> r as int == c as int + 32
    ensures !('A' <= c <= 'Z') ==> r == c
    ensures !('A' <= r <= 'Z')
  {
    if 'A' <= c <= 'Z' then (c as int + 32) as char else c
  }

  /** `strtolower`: every ASCII capital lowered, everything else kept, length unchanged. */
  function ToLower(s: string): (r: string)
    ensures |r| == |s|
    ensures forall i :: 0 <= i < |s| ==> r[i] == LowerChar(s[i])
  {
    seq(|s|, i requires 0 <= i < |s| => LowerChar(s[i]))
  }

  /** Lowering twice is lowering once. */
  lemma ToLowerIdempotent(s: string)
    ensures ToLower(ToLower(s)) == ToLower(s)
  {
  }

  /** The message of the exception thrown for an unknown value, which quotes the value as given. */
  function InvalidMessage(value: string): string {
    "Invalid editor type: " + value
  }

  /** `fromString(value)`: the case whose backing value is `strtolower(value)`, else the exception. */
  function FromString(value: string): (r: Result<EditorType, string>)
    ensures r.Success? ==> ToLower(value) == Value(r.value)
    ensures r.Failure? ==> r.error == InvalidMessage(value)
    ensures r.Failure? <==> forall t: EditorType :: ToLower(value) != Value(t)
  {
    var lowered := ToLower(value);
    if lowered == "classic" then Success(Classic)
    else if lowered == "inline" then Success(Inline)
    else if lowered == "balloon" then Success(Balloon)
    else if lowered == "decoupled" then Success(Decoupled)
    else if lowered == "multiroot" then Success(Multiroot)
    else Failure(InvalidMessage(value))
  }

  /** Every case parses back from its own backing value. */
  lemma RoundTrip(t: EditorType)
    ensures FromString(Value(t)) == Success(t)
  {
    assert ToLower(Value(t)) == Value(t);
  }

  /** A value and its lower-case form parse to the same case; only the message keeps the original spelling. */
  lemma CaseInsensitive(value: string)
    ensures FromString(value).Success? <==> FromString(ToLower(value)).Success?
    ensures FromString(value).Success? ==> FromString(value) == FromString(ToLower(value))
  {
    ToLowerIdempotent(value);
  }

  /** Upper-case spellings are accepted; an unknown value is reported as written. */
  lemma FromStringExamples()
    ensures FromString("CLASSIC") == Success(Classic)
    ensures FromString("nope") == Failure("Invalid editor type: nope")
  {
    assert ToLower("CLASSIC") == "classic";
    assert ToLower("nope") == "nope";
    assert "nope"[0] == 'n';
    assert InvalidMessage("nope") == "Invalid editor type: nope";
  }
}
