/**
 * The server-sent-event connection both live views hold: its three-state
 * health indicator and the rule that content-free messages are skipped.
 */
module EventStream {
  import opened Js

  /** `"connecting" | "live" | "error"`. */
  datatype SseStatus = Connecting | Live | Error

  /** The two connection callbacks: `onopen` and `onerror`. */
  datatype Signal = Opened | Failed

  /** The status a handler sets: `onopen` gives live, `onerror` gives error, whatever came before. */
  function Transition(s: SseStatus, sig: Signal): (r: SseStatus)
    ensures r == Live <==> sig == Opened
    ensures r == Error <==> sig == Failed
    ensures r != Connecting
  {
    match sig
    case Opened => Live
    case Failed => Error
  }

  /** The status after a history of connection callbacks, starting from `connecting`. */
  function StatusAfter(signals: seq<Signal>): SseStatus {
    if signals == [] then Connecting
    else Transition(StatusAfter(signals[..|signals| - 1]), signals[|signals| - 1])
  }

  /** The status reads `connecting` only before the first callback; afterwards it names the latest one. */
  lemma {:induction false} StatusAfterLatest(signals: seq<Signal>)
    ensures StatusAfter(signals) == Connecting <==> signals == []
    ensures signals != [] ==> StatusAfter(signals) == (if signals[|signals| - 1] == Opened then Live else Error)
  {
    if signals != [] {
      var init := signals[..|signals| - 1];
      assert StatusAfter(signals) == Transition(StatusAfter(init), signals[|signals| - 1]);
    }
  }

  /** `!e.data || e.data.startsWith(":")`: an empty message or a comment/keep-alive line. */
  function IsContentFree(data: string): (b: bool)
    ensures b <==> |data| == 0 || data[0] == ':'
  {
    data == "" || StartsWith(data, ":")
  }
}
