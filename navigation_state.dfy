/** The navigation breadcrumb of the console front end: a stack of names
    whose first entry is the name of the working directory and whose depth
    says which level of the quest book the user is looking at (one entry:
    the chapters, two: the quests of a chapter, three: the tasks of a quest,
    four: its rewards).  The class does no checking of its own: whether a
    name exists at the next level is decided by its callers. */
module Navigation {
  import opened Wrappers
  import opened Text

  /** The level shown at a breadcrumb of the given depth (`get_place`);
      any other depth has no level. */
  function PlaceOf(depth: nat): (r: Option<string>)
    ensures r.Some? <==> 1 <= depth <= 4
  {
    match depth
    case 1 => Some("chapters")
    case 2 => Some("quests")
    case 3 => Some("tasks")
    case 4 => Some("rewards")
    case _ => None
  }

  /** The depth at which a level is shown. The source has no such function:
      this inverse of `PlaceOf` exists only to state that `get_place` gives
      each level at one depth only. */
  function DepthOf(place: string): (r: Option<nat>)
    ensures r.Some? ==> 1 <= r.value <= 4
  {
    if place == "chapters" then Some(1)
    else if place == "quests" then Some(2)
    else if place == "tasks" then Some(3)
    else if place == "rewards" then Some(4)
    else None
  }

  /** Every level belongs to exactly one depth. */
  lemma PlaceDepthInverse(depth: nat, place: string)
    ensures PlaceOf(depth) == Some(place) <==> DepthOf(place) == Some(depth)
  {
  }

  /** The names a `go` argument stands for: a path written with `>` (tried
      first) or `/` is stripped and split at that separator, empty pieces
      included; anything else is one name, taken as it is. */
  function Pieces(target: string): (r: seq<string>)
    ensures |r| >= 1
  {
    if '>' in target then Split(Strip(target), '>')
    else if '/' in target then Split(Strip(target), '/')
    else [target]
  }

  /** A `>` path names at least two levels, no piece holds a `>`, and
      joining the pieces again gives the stripped argument. */
  lemma GreaterPath(target: string)
    requires '>' in target
    ensures |Pieces(target)| >= 2
    ensures forall p :: p in Pieces(target) ==> '>' !in p
    ensures Join(Pieces(target), '>') == Strip(target)
  {
    StripKeeps(target, '>');
    OccurrencesPositive(Strip(target), '>');
    JoinSplit(Strip(target), '>');
  }

  /** A `/` path without `>` names at least two levels, its pieces hold
      neither separator, and joining them again gives the stripped argument. */
  lemma SlashPath(target: string)
    requires '>' !in target && '/' in target
    ensures |Pieces(target)| >= 2
    ensures forall p :: p in Pieces(target) ==> '/' !in p && '>' !in p
    ensures Join(Pieces(target), '/') == Strip(target)
  {
    var s := Strip(target);
    StripKeeps(target, '/');
    OccurrencesPositive(s, '/');
    JoinSplit(s, '/');
    if '>' in s {
      StripDrops(target, '>');
    }
    forall p | p in Pieces(target) ensures '>' !in p {
      if '>' in p {
        JoinHolds(Pieces(target), '/', p, '>');
      }
    }
  }

  /** A character of a piece is a character of the joined string. */
  lemma {:induction false} JoinHolds(pieces: seq<string>, sep: char, p: string, c: char)
    requires p in pieces && c in p
    ensures c in Join(pieces, sep)
  {
    if |pieces| > 1 && p != pieces[0] {
      assert p in pieces[1..];
      JoinHolds(pieces[1..], sep, p, c);
    }
  }

  /** An argument without a separator is one name, whitespace and all. */
  lemma PlainName(target: string)
    requires '>' !in target && '/' !in target
    ensures Pieces(target) == [target]
  {
  }

  class NavigationState {
    /** The name of the directory the program was started in. */
    const cwdName: string
    /** The breadcrumb, outermost first. */
    var state: seq<string>

    /** A fresh breadcrumb holds the working directory name only. */
    constructor(cwdName: string)
      ensures this.cwdName == cwdName
      ensures state == [cwdName]
      ensures GetPlace() == Some("chapters")
    {
      this.cwdName := cwdName;
      state := [cwdName];
    }

    /** `get_place`: the level the breadcrumb points at, present exactly at
        depths one to four and shown at that depth only; deeper or empty
        breadcrumbs fall through the `match` to None. */
    function GetPlace(): (r: Option<string>)
      reads this
      ensures r.Some? <==> 1 <= |state| <= 4
      ensures r.Some? ==> DepthOf(r.value) == Some(|state|)
    {
      var r := PlaceOf(|state|);
      if r.Some? then PlaceDepthInverse(|state|, r.value); r else r
    }

    /** `back` drops the innermost name.  Popping an empty breadcrumb is an
        `IndexError` in the source; here it reports `false` and changes
        nothing. */
    method Back() returns (ok: bool)
      modifies this
      ensures ok <==> old(state) != []
      ensures ok ==> state == old(state)[..|old(state)| - 1]
      ensures !ok ==> state == old(state)
    {
      if state == [] {
        return false;
      }
      state := state[..|state| - 1];
      return true;
    }

    /** `reset` goes back to the chapter level. */
    method Reset()
      modifies this
      ensures state == [cwdName]
      ensures GetPlace() == Some("chapters")
    {
      state := [cwdName];
    }

    /** `go` appends the names the argument stands for. */
    method Go(target: string)
      modifies this
      ensures state == old(state) + Pieces(target)
      ensures |state| > |old(state)|
    {
      if '>' in target {
        state := state + Split(Strip(target), '>');
      } else if '/' in target {
        state := state + Split(Strip(target), '/');
      } else {
        state := state + [target];
      }
    }
  }

  /** Going into a single name and coming back restores the breadcrumb. */
  method GoThenBack(nav: NavigationState, name: string)
    requires '>' !in name && '/' !in name
    modifies nav
    ensures nav.state == old(nav.state)
  {
    nav.Go(name);
    var ok := nav.Back();
    assert ok;
  }
}
