/**
 * `new File(parent, child)` on a Unix file system: the child is normalised
 * (runs of '/' merged into one, a trailing '/' dropped) and then joined to
 * the parent, a leading '/' serving as the separator. So the child denotes an
 * entry directly inside the parent exactly when, once its leading and
 * trailing '/' are gone, what is left is nonempty and holds no '/'.
 */
module Paths {
  import opened Wrappers

  /** A name of an entry directly inside a directory. */
  predicate IsEntryName(e: string) {
    e != [] && '/' !in e
  }

  /** `child` without its leading '/' characters. */
  function StripLeading(child: string): (r: string)
    ensures |r| <= |child| && r == child[|child| - |r|..]
    ensures forall i :: 0 <= i < |child| - |r| ==> child[i] == '/'
    ensures r != [] ==> r[0] != '/'
  {
    if child != [] && child[0] == '/' then
      var r := StripLeading(child[1..]);
      assert child[1..][|child| - 1 - |r|..] == child[|child| - |r|..];
      r
    else child
  }

  /** `child` without its trailing '/' characters. */
  function StripTrailing(child: string): (r: string)
    ensures |r| <= |child| && r == child[..|r|]
    ensures forall i :: |r| <= i < |child| ==> child[i] == '/'
    ensures r != [] ==> r[|r| - 1] != '/'
  {
    if child != [] && child[|child| - 1] == '/' then StripTrailing(child[..|child| - 1]) else child
  }

  /** The entry directly inside the parent that `new File(parent, child)`
      denotes, or `None` when it denotes the parent itself or a path through
      a subdirectory. */
  function Entry(child: string): (r: Option<string>)
    ensures r.Some? ==> IsEntryName(r.value)
  {
    var core := StripLeading(StripTrailing(child));
    if IsEntryName(core) then Some(core) else None
  }

  /** A child with no '/' at all is its own entry. */
  lemma EntryOfSlashFree(child: string)
    requires IsEntryName(child)
    ensures Entry(child) == Some(child)
  {
  }

  /** Trailing '/' characters are dropped: `a/` and `a//` denote the entry `a`. */
  lemma EntryDropsTrailingSlashes(e: string, k: nat)
    requires IsEntryName(e)
    ensures Entry(e + seq(k, _ => '/')) == Some(e)
  {
    StripTrailingSlashes(e, k);
  }

  lemma {:induction false} StripTrailingSlashes(e: string, k: nat)
    requires e != [] && e[|e| - 1] != '/'
    ensures StripTrailing(e + seq(k, _ => '/')) == e
  {
    var c := e + seq(k, _ => '/');
    if k > 0 {
      assert c[..|c| - 1] == e + seq(k - 1, _ => '/');
      StripTrailingSlashes(e, k - 1);
    } else {
      assert c == e;
    }
  }

  /** A child that does not start with '/' and holds a '/' followed, somewhere
      later, by a character other than '/' reaches into a subdirectory:
      dropping the trailing '/' run keeps both. */
  lemma InnerSlashIsNested(child: string, j: nat, k: nat)
    requires 0 < j < k < |child| && child[j] == '/' && child[k] != '/'
    requires child[0] != '/'
    ensures Entry(child).None?
  {
    var t := StripTrailing(child);
    assert |t| > k;
    assert t[j] == '/' && t[0] != '/';
    assert StripLeading(t) == t;
  }

  /** The same, for a child built as a prefix that does not start with '/'
      followed by a part holding the inner '/'. */
  lemma AppendedSlashIsNested(prefix: string, rest: string, j: nat, k: nat)
    requires prefix != [] && prefix[0] != '/'
    requires 0 < j < k < |rest| && rest[j] == '/' && rest[k] != '/'
    ensures Entry(prefix + rest).None?
  {
    var child := prefix + rest;
    assert child[|prefix| + j] == '/' && child[|prefix| + k] != '/';
    InnerSlashIsNested(child, |prefix| + j, |prefix| + k);
  }
}
