/** The training settings page: three ordered exercise lists (daily, abs,
    challenge) and the text of the new-exercise input, with adding, removing
    and moving exercises. */
module Settings {
  import opened Categories
  import opened Text

  /** One exercise of a list; `id` is whatever identifier the caller supplies. */
  datatype Exercise = Exercise(id: string, name: string, icon: string)

  /** The daily list the page starts with. */
  function InitialDaily(): (r: seq<Exercise>)
    ensures |r| == 3 && Tidy(r, Daily) && DistinctIds(r)
  {
    [Exercise("1", "Armhävningar", Glyph(Daily)),
     Exercise("2", "Plankan", Glyph(Daily)),
     Exercise("3", "Burpees", Glyph(Daily))]
  }

  /** The abs list the page starts with. */
  function InitialMag(): (r: seq<Exercise>)
    ensures |r| == 3 && Tidy(r, Mag) && DistinctIds(r)
  {
    [Exercise("1", "Sit-ups", Glyph(Mag)),
     Exercise("2", "Crunches", Glyph(Mag)),
     Exercise("3", "Magcyklar", Glyph(Mag))]
  }

  /** The challenge list the page starts with. */
  function InitialChallenge(): (r: seq<Exercise>)
    ensures |r| == 2 && Tidy(r, Challenge) && DistinctIds(r)
  {
    [Exercise("1", "5km löpning", Glyph(Challenge)),
     Exercise("2", "100 burpees", Glyph(Challenge))]
  }

  /** Every entry carries its list's glyph and a non-empty name. */
  predicate Tidy(list: seq<Exercise>, kind: Kind)
  {
    forall e :: e in list ==> e.icon == Glyph(kind) && e.name != ""
  }

  /** The ids within the list are distinct. */
  predicate DistinctIds(list: seq<Exercise>)
  {
    forall i, j :: 0 <= i < j < |list| ==> list[i].id != list[j].id
  }

  /** The entries of `list` whose id differs from `id`, in their original order. */
  function Without(list: seq<Exercise>, id: string): (r: seq<Exercise>)
    ensures |r| <= |list|
    ensures forall e :: multiset(r)[e] == if e.id == id then 0 else multiset(list)[e]
  {
    if list == [] then []
    else
      var rest := Without(list[1..], id);
      assert list == [list[0]] + list[1..];
      if list[0].id == id then rest else [list[0]] + rest
  }

  /** `r` is `s` with some entries left out, the rest in their original order. */
  ghost predicate IsSubsequence(r: seq<Exercise>, s: seq<Exercise>)
    decreases |s|
  {
    r == [] || (s != [] && if r[0] == s[0] then IsSubsequence(r[1..], s[1..]) else IsSubsequence(r, s[1..]))
  }

  /** Removal keeps the remaining entries in their relative order. */
  lemma {:induction false} WithoutKeepsOrder(list: seq<Exercise>, id: string)
    ensures IsSubsequence(Without(list, id), list)
  {
    if list != [] {
      WithoutKeepsOrder(list[1..], id);
      if list[0].id == id {
        SubsequenceOfTail(Without(list[1..], id), list);
      }
    }
  }

  /** A subsequence of the tail is a subsequence of the whole. */
  lemma {:induction false} SubsequenceOfTail(r: seq<Exercise>, s: seq<Exercise>)
    requires s != [] && IsSubsequence(r, s[1..])
    ensures IsSubsequence(r, s)
    decreases |s|, 0
  {
    if r != [] && r[0] == s[0] {
      SubsequenceDropHead(r, s[1..]);
    }
  }

  /** Dropping the head of a non-empty subsequence keeps it a subsequence. */
  lemma {:induction false} SubsequenceDropHead(r: seq<Exercise>, s: seq<Exercise>)
    requires r != [] && IsSubsequence(r, s)
    ensures IsSubsequence(r[1..], s)
    decreases |s|, 1
  {
    if r[1..] != [] {
      if r[0] == s[0] {
        SubsequenceOfTail(r[1..], s);
      } else {
        SubsequenceDropHead(r, s[1..]);
        SubsequenceOfTail(r[1..], s);
      }
    }
  }

  /** Removing an id no entry carries changes nothing. */
  lemma {:induction false} WithoutAbsent(list: seq<Exercise>, id: string)
    requires forall i :: 0 <= i < |list| ==> list[i].id != id
    ensures Without(list, id) == list
  {
    if list != [] {
      WithoutAbsent(list[1..], id);
    }
  }

  /** Removing the same id twice is the same as removing it once. */
  lemma WithoutIdempotent(list: seq<Exercise>, id: string)
    ensures Without(Without(list, id), id) == Without(list, id)
  {
    var r := Without(list, id);
    forall i | 0 <= i < |r| ensures r[i].id != id {
      assert multiset(r)[r[i]] > 0;
    }
    WithoutAbsent(r, id);
  }

  /** Appending an entry with the list's glyph and a non-empty name keeps a
      list tidy. */
  lemma TidyAppend(list: seq<Exercise>, e: Exercise, kind: Kind)
    requires Tidy(list, kind) && e.icon == Glyph(kind) && e.name != ""
    ensures Tidy(list + [e], kind)
  {
  }

  /** Removal keeps a list tidy. */
  lemma WithoutTidy(list: seq<Exercise>, id: string, kind: Kind)
    requires Tidy(list, kind)
    ensures Tidy(Without(list, id), kind)
  {
  }

  /** JavaScript's rule for a `splice` start position in a list of `len`
      entries: a negative start counts from the end, and the result is clamped
      to 0..len: a start past the end means the end, and a negative start
      reaching before the beginning means the beginning. */
  function SpliceStart(start: int, len: nat): (k: nat)
    ensures k <= len
    ensures 0 <= start <= len ==> k == start
    ensures start < 0 && -start <= len ==> k == len + start
    ensures start > len ==> k == len
    ensures start + len < 0 ==> k == 0
  {
    if start < 0 then (if len + start < 0 then 0 else len + start)
    else if start > len then len
    else start
  }

  /** `s` without its entry at `i`. */
  function RemoveAt(s: seq<Exercise>, i: nat): (r: seq<Exercise>)
    requires i < |s|
    ensures |r| == |s| - 1
    ensures forall j :: 0 <= j < |r| ==> r[j] == if j < i then s[j] else s[j + 1]
  {
    s[..i] + s[i + 1..]
  }

  /** `s` with `x` inserted so that it sits at position `i`. */
  function InsertAt(s: seq<Exercise>, i: nat, x: Exercise): (r: seq<Exercise>)
    requires i <= |s|
    ensures |r| == |s| + 1 && r[i] == x
    ensures forall j :: 0 <= j < |r| && j != i ==> r[j] == if j < i then s[j] else s[j - 1]
  {
    s[..i] + [x] + s[i..]
  }

  /** Entry `from` moved to position `to`, every other entry shifted to close
      the gap and open the slot. */
  function Moved(s: seq<Exercise>, from: nat, to: nat): seq<Exercise>
    requires from < |s| && to < |s|
  {
    InsertAt(RemoveAt(s, from), to, s[from])
  }

  /** Inserting at a position and removing at the same position restores the list. */
  lemma RemoveInserted(s: seq<Exercise>, i: nat, x: Exercise)
    requires i <= |s|
    ensures RemoveAt(InsertAt(s, i, x), i) == s
  {
  }

  /** Removing an entry takes exactly one copy of it out of the multiset. */
  lemma RemoveAtMultiset(s: seq<Exercise>, i: nat)
    requires i < |s|
    ensures multiset(RemoveAt(s, i)) + multiset{s[i]} == multiset(s)
  {
    assert s == s[..i] + [s[i]] + s[i + 1..];
    assert RemoveAt(s, i) == s[..i] + s[i + 1..];
  }

  /** Inserting an entry adds exactly one copy of it to the multiset. */
  lemma InsertAtMultiset(s: seq<Exercise>, i: nat, x: Exercise)
    requires i <= |s|
    ensures multiset(InsertAt(s, i, x)) == multiset(s) + multiset{x}
  {
    assert s == s[..i] + s[i..];
    assert InsertAt(s, i, x) == s[..i] + [x] + s[i..];
  }

  /** A move keeps the length and the multiset of entries, puts the moved
      entry at `to`, and keeps all other entries in their relative order. */
  lemma MovedIsPermutation(s: seq<Exercise>, from: nat, to: nat)
    requires from < |s| && to < |s|
    ensures |Moved(s, from, to)| == |s|
    ensures multiset(Moved(s, from, to)) == multiset(s)
    ensures Moved(s, from, to)[to] == s[from]
    ensures RemoveAt(Moved(s, from, to), to) == RemoveAt(s, from)
  {
    RemoveAtMultiset(s, from);
    InsertAtMultiset(RemoveAt(s, from), to, s[from]);
    RemoveInserted(RemoveAt(s, from), to, s[from]);
  }

  /** Moving an entry onto its own position changes nothing. */
  lemma MovedInPlace(s: seq<Exercise>, i: nat)
    requires i < |s|
    ensures Moved(s, i, i) == s
  {
  }

  /** Moving back undoes a move. */
  lemma MovedBack(s: seq<Exercise>, from: nat, to: nat)
    requires from < |s| && to < |s|
    ensures Moved(Moved(s, from, to), to, from) == s
  {
    MovedIsPermutation(s, from, to);
    var r := Moved(s, from, to);
    assert Moved(r, to, from) == InsertAt(RemoveAt(s, from), from, s[from]);
    assert s == s[..from] + [s[from]] + s[from + 1..];
  }

  /** A move keeps a list tidy. */
  lemma MovedTidy(s: seq<Exercise>, from: nat, to: nat, kind: Kind)
    requires from < |s| && to < |s| && Tidy(s, kind)
    ensures Tidy(Moved(s, from, to), kind)
  {
  }

  /** The state of the settings page. */
  class SettingsState {
    var dailyExercises: seq<Exercise>
    var magExercises: seq<Exercise>
    var challengeExercises: seq<Exercise>
    var newExerciseName: string

    /** The list of one kind. */
    function ListOf(kind: Kind): seq<Exercise>
      reads this
    {
      if kind == Daily then dailyExercises
      else if kind == Mag then magExercises
      else challengeExercises
    }

    /** Every list's entries carry that list's glyph and a non-empty name. */
    ghost predicate Valid()
      reads this
    {
      Tidy(dailyExercises, Daily) && Tidy(magExercises, Mag) && Tidy(challengeExercises, Challenge)
    }

    constructor ()
      ensures dailyExercises == InitialDaily()
      ensures magExercises == InitialMag()
      ensures challengeExercises == InitialChallenge()
      ensures newExerciseName == ""
      ensures Valid()
    {
      dailyExercises := InitialDaily();
      magExercises := InitialMag();
      challengeExercises := InitialChallenge();
      newExerciseName := "";
    }

    /** Replaces the list of one kind. */
    method SetList(kind: Kind, list: seq<Exercise>)
      modifies this
      ensures dailyExercises == if kind == Daily then list else old(dailyExercises)
      ensures magExercises == if kind == Mag then list else old(magExercises)
      ensures challengeExercises == if kind == Challenge then list else old(challengeExercises)
      ensures ListOf(kind) == list
      ensures forall k: Kind :: k != kind ==> ListOf(k) == old(ListOf(k))
      ensures newExerciseName == old(newExerciseName)
    {
      if kind == Daily {
        dailyExercises := list;
      } else if kind == Mag {
        magExercises := list;
      } else {
        challengeExercises := list;
      }
    }

    /** The input field's change handler. */
    method SetNewExerciseName(text: string)
      requires Valid()
      modifies this
      ensures Valid()
      ensures newExerciseName == text
      ensures forall k: Kind :: ListOf(k) == old(ListOf(k))
    {
      newExerciseName := text;
    }

    /** `addExercise(type)`, with `id` standing for the clock reading the page
        uses. An empty or whitespace-only input changes nothing; otherwise one
        entry with the trimmed name and the kind's glyph is appended to that
        kind's list, the other lists are kept and the input is cleared. */
    method AddExercise(kind: Kind, id: string)
      requires Valid()
      modifies this
      ensures Valid()
      ensures Trim(old(newExerciseName)) == "" ==>
        newExerciseName == old(newExerciseName) && forall k: Kind :: ListOf(k) == old(ListOf(k))
      ensures Trim(old(newExerciseName)) != "" ==>
        && ListOf(kind) == old(ListOf(kind)) + [Exercise(id, Trim(old(newExerciseName)), Glyph(kind))]
        && newExerciseName == ""
      ensures forall k: Kind :: k != kind ==> ListOf(k) == old(ListOf(k))
    {
      var name := Trim(newExerciseName);
      if name == "" {
        return;
      }
      assert name != "";
      var icon := if kind == Daily then Glyph(Daily) else if kind == Mag then Glyph(Mag) else Glyph(Challenge);
      Append(kind, Exercise(id, name, icon));
    }

    /** Appends an entry to one list and clears the input. */
    method Append(kind: Kind, e: Exercise)
      requires Valid() && e.icon == Glyph(kind) && e.name != ""
      modifies this
      ensures Valid()
      ensures ListOf(kind) == old(ListOf(kind)) + [e] && newExerciseName == ""
      ensures forall k: Kind :: k != kind ==> ListOf(k) == old(ListOf(k))
    {
      TidyAppend(ListOf(kind), e, kind);
      SetList(kind, ListOf(kind) + [e]);
      newExerciseName := "";
    }

    /** `removeExercise(type, id)`: every entry with that id leaves that kind's
        list; the other lists and the input are kept. */
    method RemoveExercise(kind: Kind, id: string)
      requires Valid()
      modifies this
      ensures Valid()
      ensures ListOf(kind) == Without(old(ListOf(kind)), id)
      ensures forall k: Kind :: k != kind ==> ListOf(k) == old(ListOf(k))
      ensures newExerciseName == old(newExerciseName)
    {
      WithoutTidy(ListOf(kind), id, kind);
      SetList(kind, Without(ListOf(kind), id));
    }

    /** `moveExercise(type, fromIndex, toIndex)`: copy the list, splice the
        entry out at `fromIndex` and back in at `toIndex`, both positions read
        with JavaScript's splice rule. The source index must name an entry. */
    method MoveExercise(kind: Kind, fromIndex: int, toIndex: int)
      requires Valid()
      requires SpliceStart(fromIndex, |ListOf(kind)|) < |ListOf(kind)|
      modifies this
      ensures Valid()
      ensures ListOf(kind) == Moved(old(ListOf(kind)), SpliceStart(fromIndex, |old(ListOf(kind))|),
                                    SpliceStart(toIndex, |old(ListOf(kind))| - 1))
      ensures forall k: Kind :: k != kind ==> ListOf(k) == old(ListOf(k))
      ensures newExerciseName == old(newExerciseName)
    {
      var exercises := ListOf(kind);
      var newExercises := exercises;
      var f := SpliceStart(fromIndex, |newExercises|);
      var movedItem := newExercises[f];
      newExercises := newExercises[..f] + newExercises[f + 1..];
      assert newExercises == RemoveAt(exercises, f);
      var t := SpliceStart(toIndex, |newExercises|);
      newExercises := newExercises[..t] + [movedItem] + newExercises[t..];
      assert newExercises == Moved(exercises, f, t);
      MovedTidy(exercises, f, t, kind);
      SetList(kind, newExercises);
    }
  }
}
