/** What flexvault's layers share: errors, credential requests, and drivers. */
module Vault {
  import opened Text

  /** The errors callers can test for. An error is the set of those it wraps; its text is left out. */
  datatype Sentinel = ErrLocked | ErrNotFound | ErrReadOnly | ErrAuth | ErrUnsupported | ErrNotConfigured
                    | ErrPromptCancelled | ErrPromptUnavailable | ErrAgentUnavailable

  type Error = set<Sentinel>

  datatype Request = Request(id: string, optional: bool)
  type Answers = map<string, string>

  /** A prompter: what the k-th dispatch answers to these requests. */
  type Prompter = (nat, seq<Request>) -> Result<Answers, Error>

  /** A driver over its own state. Every call may change the state. */
  datatype Driver<!S> = Driver(
    configure: S -> (Option<Error>, S),
    credentials: S -> seq<Request>,
    unlock: (S, Answers) -> (Option<Error>, S),
    get: (S, string) -> (Result<string, Error>, S),
    set_: (S, string, string) -> (Option<Error>, S),
    list: (S, string) -> (Result<seq<string>, Error>, S),
    lock: S -> (Option<Error>, S))

  function Ids(reqs: seq<Request>): set<string> {
    set i | 0 <= i < |reqs| :: reqs[i].id
  }

  /** The answer contract: an answer for each required request, and none that was not asked for. */
  predicate Answered(reqs: seq<Request>, answers: Answers) {
    && answers.Keys <= Ids(reqs)
    && forall i | 0 <= i < |reqs| && !reqs[i].optional :: reqs[i].id in answers
  }
}
