/** A file replaced by compare-and-swap: every participant knows one content, and may replace the file
    only while it still holds that content. */
module CasStore {

  datatype Store<T> = Store(file: T, known: map<nat, T>)

  datatype Move<T> =
    | Stay
    | Join(c: nat, seen: T)      // a participant that read the file, or never did
    | Swap(c: nat, content: T)
    | Part(gone: set<nat>)

  ghost predicate Allowed<T>(s: Store<T>, m: Move<T>, missing: T) {
    match m
    case Stay => true
    case Join(c, seen) => c !in s.known && (seen == s.file || seen == missing)
    case Swap(c, _) => c in s.known && s.known[c] == s.file
    case Part(_) => true
  }

  function Moved<T>(s: Store<T>, m: Move<T>): Store<T> {
    match m
    case Stay => s
    case Join(c, seen) => s.(known := s.known[c := seen])
    case Swap(c, content) => Store(content, s.known[c := content])
    case Part(gone) => s.(known := s.known - gone)
  }

  ghost predicate Steps<T(!new)>(s: Store<T>, s': Store<T>, missing: T) {
    exists m: Move<T> :: Allowed(s, m, missing) && Moved(s, m) == s'
  }
}
