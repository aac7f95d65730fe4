/**
  The validators that the room and its store share. Strings are sequences of
  Unicode scalar values, as valid UTF-8 strings are; lengths count their bytes.
*/
module Validation {

  const MAX_TAB_NAME_BYTES := 64
  const MAX_DOCUMENT_ID_BYTES := 64
  const MAX_OPERATION_ID_BYTES := 128
  const MAX_CLIENT_ID_BYTES := 128

  const LANGUAGES: seq<string> :=
    ["plaintext", "javascript", "typescript", "html", "python", "go", "c", "cpp", "java", "rust"]

  function CharBytes(c: char): nat {
    var code := c as int;
    if code < 0x80 then 1 else if code < 0x800 then 2 else if code < 0x10000 then 3 else 4
  }

  function ByteLength(s: string): nat {
    if s == "" then 0 else ByteLength(s[..|s| - 1]) + CharBytes(s[|s| - 1])
  }

  /** White space as Go's `unicode.IsSpace` has it. */
  predicate IsSpace(c: char) {
    var code := c as int;
    || 0x09 <= code <= 0x0D || code == 0x20 || code == 0x85 || code == 0xA0 || code == 0x1680
    || 0x2000 <= code <= 0x200A || code == 0x2028 || code == 0x2029 || code == 0x202F || code == 0x205F
      || code == 0x3000
  }

  predicate IsControl(c: char) {
    var code := c as int;
    code <= 0x1F || 0x7F <= code <= 0x9F
  }

  /** No white space at either end: trimming changes nothing. */
  predicate Trimmed(s: string) {
    s == "" || (!IsSpace(s[0]) && !IsSpace(s[|s| - 1]))
  }

  predicate ValidTabName(s: string) {
    && 1 <= ByteLength(s) <= MAX_TAB_NAME_BYTES
    && Trimmed(s)
    && forall i :: 0 <= i < |s| ==> !IsControl(s[i])
  }

  predicate ValidLanguage(s: string) {
    s in LANGUAGES
  }

  predicate IdCharacter(c: char) {
    'a' <= c <= 'z' || '0' <= c <= '9' || c == '-' || c == '_'
  }

  predicate ValidDocumentId(s: string) {
    && 1 <= ByteLength(s) <= MAX_DOCUMENT_ID_BYTES
    && (forall i :: 0 <= i < |s| ==> IdCharacter(s[i]))
    && (s != "" ==> s[0] != '-')
  }

  /** What the room demands of the ids of an operation and its client. */
  predicate ValidOperation(operationId: string, clientId: string) {
    && 1 <= ByteLength(operationId) <= MAX_OPERATION_ID_BYTES
    && 1 <= ByteLength(clientId) <= MAX_CLIENT_ID_BYTES
  }

  /** What the store demands of them: that, and no surrounding white space. */
  predicate Recordable(operationId: string, clientId: string) {
    ValidOperation(operationId, clientId) && Trimmed(operationId) && Trimmed(clientId)
  }

  /** The two differ: the room lets an operation id with a leading space pass. */
  lemma PaddedIdsDiffer()
    ensures ValidOperation(" x", "c") && !Recordable(" x", "c")
  {
    assert " x"[..1] == " " && " "[..0] == "" && "c"[..0] == "";
    assert ByteLength(" ") == 1 && ByteLength("c") == 1;
  }
}
