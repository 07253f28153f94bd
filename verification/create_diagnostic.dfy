/**
 * Diagnostic records (the shape of `ts.Diagnostic`) and their factory, src/create-diagnostic.ts
 * (and its copy at src/index.ts:94-109).
 */
module Diagnostics {
  import opened Wrappers

  /** `ts.DiagnosticCategory`; its numbering is Warning 0, Error 1, Suggestion 2, Message 3. */
  datatype Category = Warning | Error | Suggestion | Message

  /** The code a diagnostic gets when none is given. The source writes `-0`, which equals `0`. */
  const NO_CODE: int := 0

  /** A diagnostic: message, numeric code, category, and an optional position in a file. */
  datatype Diagnostic = Diagnostic(
    messageText: string,
    code: int,
    category: Category,
    file: Option<string>,
    start: Option<int>,
    length: Option<int>)

  /** What a caller hands to the factory: the message, and optionally a code, a category and a file. */
  datatype DiagnosticMessage = DiagnosticMessage(
    messageText: string,
    code: Option<int>,
    category: Option<Category>,
    file: Option<string>)

  /** A message with only its text. */
  function Plain(messageText: string): DiagnosticMessage {
    DiagnosticMessage(messageText, None, None, None)
  }

  /** A message with a text and a code. */
  function Coded(code: int, messageText: string): DiagnosticMessage {
    DiagnosticMessage(messageText, Some(code), None, None)
  }

  /**
   * `createDiagnostic`: total; keeps the text, the code (or `NO_CODE`) and the category (or Error),
   * and leaves the file and the position unset whatever the message says.
   */
  function CreateDiagnostic(message: DiagnosticMessage): (d: Diagnostic)
    ensures d.messageText == message.messageText
    ensures message.code.None? ==> d.code == NO_CODE
    ensures message.code.Some? ==> d.code == message.code.value
    ensures message.category.None? ==> d.category == Error
    ensures message.category.Some? ==> d.category == message.category.value
    ensures d.file == None && d.start == None && d.length == None
  {
    Diagnostic(
      message.messageText,
      if message.code.None? then NO_CODE else message.code.value,
      message.category.GetOr(Error),
      None,
      None,
      None)
  }

  /**
   * The record src/create-diagnostic.ts declares: the text sits under `message`. A caller's
   * record read through that declaration has no such field (JavaScript `undefined`), because
   * the callers in src/find-config-file.ts and src/resolve-ts-config.ts write the text under
   * `messageText`.
   */
  datatype DeclaredMessage = DeclaredMessage(message: Option<string>, code: Option<int>, category: Option<Category>)

  /** A diagnostic whose text may be `undefined`, as the factory written in that file builds it. */
  datatype RawDiagnostic = RawDiagnostic(messageText: Option<string>, code: int, category: Category)

  /** A caller's record as the declared factory sees it. */
  function AsDeclared(message: DiagnosticMessage): DeclaredMessage {
    DeclaredMessage(None, message.code, message.category)
  }

  /** The factory as written: the text is read from `message`. */
  function CreateDiagnosticAsWritten(message: DeclaredMessage): (d: RawDiagnostic)
    ensures d.messageText == message.message
    ensures d.code == (if message.code.None? then NO_CODE else message.code.value)
    ensures d.category == message.category.GetOr(Error)
  {
    RawDiagnostic(message.message, if message.code.None? then NO_CODE else message.code.value, message.category.GetOr(Error))
  }

  /**
   * Every message the split callers build loses its text in the factory as written, while
   * `CreateDiagnostic` keeps it; code and category agree.
   */
  lemma AsWrittenLosesText(message: DiagnosticMessage)
    ensures CreateDiagnosticAsWritten(AsDeclared(message)).messageText == None
    ensures CreateDiagnostic(message).messageText == message.messageText
    ensures CreateDiagnosticAsWritten(AsDeclared(message)).code == CreateDiagnostic(message).code
    ensures CreateDiagnosticAsWritten(AsDeclared(message)).category == CreateDiagnostic(message).category
  {
  }
}
