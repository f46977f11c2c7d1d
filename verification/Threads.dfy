/** Threads, and what one of them does in one step of a protocol. */
module Threads {

  type Tid = nat

  datatype Event<Step> = Event(t: Tid, step: Step)
}
