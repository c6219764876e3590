/** Deterministic source eligibility: which native records become cognition, context or nothing. */
module SourceCurator {
  import opened Wrappers

  datatype Disposition = Compile | ContextOnly | Ignore

  const OPERATIONAL_TYPES: set<string> := {
    "agent_progress", "agent_execution", "tool_call", "shell_command", "stdout", "stderr",
    "ci_output", "git_operation", "patch_progress", "test_progress", "polling", "retry",
    "http_transient", "token_accounting", "latency", "trace", "background_task",
    "file_operation", "temporary_plan", "session_meta"
  }

  /** The characters Python strips as whitespace. */
  predicate IsSpace(c: char) {
    || '\U{09}' <= c <= '\U{0D}' || '\U{1C}' <= c <= '\U{20}' || c == '\U{85}' || c == '\U{A0}' || c == '\U{1680}'
    || '\U{2000}' <= c <= '\U{200A}' || c == '\U{2028}' || c == '\U{2029}' || c == '\U{202F}' || c == '\U{205F}'
       || c == '\U{3000}'
  }

  const SPACES := [
    '\U{9}', '\U{A}', '\U{B}', '\U{C}', '\U{D}', '\U{1C}', '\U{1D}', '\U{1E}', '\U{1F}', ' ', '\U{85}', '\U{A0}', '\U{1680}',
    '\U{2000}', '\U{2001}', '\U{2002}', '\U{2003}', '\U{2004}', '\U{2005}', '\U{2006}', '\U{2007}', '\U{2008}', '\U{2009}',
    '\U{200A}', '\U{2028}', '\U{2029}', '\U{202F}', '\U{205F}', '\U{3000}']

  /** The ranges are these twenty-nine characters. */
  lemma SpacesAre(c: char)
    ensures IsSpace(c) <==> c in SPACES
  {
    assert |SPACES| == 29;
  }

  /** `content.strip()` is empty. */
  predicate Blank(text: string) {
    forall c | c in text :: IsSpace(c)
  }

  function Classify(role: string, recordType: string, content: Option<string>, necessaryContext: bool): Disposition {
    if role == "agent" || recordType in OPERATIONAL_TYPES then Ignore
    else if role == "user" && content.Some? && !Blank(content.value) then Compile
    else if role == "tool" then (if necessaryContext then ContextOnly else Ignore)
    else ContextOnly
  }

  /** Eligibility has no length threshold and cannot be bought with context: a record compiles exactly when it is
      non-blank user text outside the operational types, whether or not it is asked for as context. */
  lemma CompileExactlyUserText(role: string, recordType: string, content: Option<string>, necessary: bool)
    ensures Classify(role, recordType, content, necessary) == Compile <==>
            role == "user" && recordType !in OPERATIONAL_TYPES && content.Some? && exists c :: c in content.value && !IsSpace(c)
  {
  }

  /** What an agent did and what operations left is ignored, and so is a tool's record unless it is asked for as context;
      everything else that does not compile is context only. */
  lemma IgnoredExactlyOperations(role: string, recordType: string, content: Option<string>, necessary: bool)
    ensures Classify(role, recordType, content, necessary) == Ignore <==>
            role == "agent" || recordType in OPERATIONAL_TYPES || (role == "tool" && !necessary)
  {
  }

  /** Text that would compile by itself: a user's, with a character that is no white space. */
  predicate Speaks(role: string, content: Option<string>) {
    role == "user" && content.Some? && exists c :: c in content.value && !IsSpace(c)
  }

  /** What may be context when asked for: all that neither compiles nor is an agent's or operational. */
  lemma ContextExactlyTheRest(role: string, recordType: string, content: Option<string>)
    ensures Classify(role, recordType, content, true) == ContextOnly
            <==> role != "agent" && recordType !in OPERATIONAL_TYPES && !Speaks(role, content)
  {
    CompileExactlyUserText(role, recordType, content, true);
    IgnoredExactlyOperations(role, recordType, content, true);
  }
}
