/**
 * What a `requestUrl` call hands back, as the plugin sees it. The network
 * itself is not modelled: every call's answer is an input, and a sequence of
 * answers stands for the replies to successive polls.
 */
module Http {
  import opened Wrappers
  import opened Js

  /**
   * `Reply(status, text, json)`: the request completed with `status` and
   * body `text`; `json` is what reading `response.json` gives, None when the
   * body is not JSON (the read throws). `Failed`: the request itself threw.
   */
  datatype Reply = Reply(status: int, text: string, json: Option<Value>) | Failed

  /** `data.status === 'complete'` on a value that is not null or undefined. */
  predicate Completed(v: Value) {
    Prop(v, "status") == Str("complete")
  }
}
