/** The conditions that stop a session handler: the `log.Fatal` calls, which
    exit the whole process, and the runtime panics the code can reach. */
module Outcomes {

  datatype Fatal =
    | WalkFailed                   // the WalkDir callback got an error and called log.Fatal
    | WalkTitlePanic(path: string) // the WalkDir callback sliced path[9:len(path)-3] with len(path) < 12
    | NilSelection                 // loadArticle called FilterValue() on the nil item of an empty selection
    | MissingPath                  // loadArticle: the selected item has an empty path, log.Fatal
    | ReadFailed(path: string)     // loadArticle: os.ReadFile returned an error, log.Fatal
    | LoadTitlePanic(path: string) // loadArticle sliced path[9:len(path)-3] with len(path) < 12
    | StateOutOfBounds(state: int) // Update: currentState is none of the three screens, log.Fatal
    | SwitchFailed                 // Update: the message kind is not handled for the screen, log.Fatal

  /** Whether the condition ends the whole server process. The two panics
      raised inside model.Update are recovered by the Bubble Tea program
      loop, which then ends only that session; every log.Fatal exits the
      process, and so does a panic in the WalkDir callback, which runs in the
      connection's handler outside any program loop. */
  predicate EndsProcess(f: Fatal) {
    !(f.NilSelection? || f.LoadTitlePanic?)
  }

  /** Either a value, or the fatal condition that stopped the session. */
  datatype Outcome<+T> = Done(value: T) | Abort(reason: Fatal)
}
