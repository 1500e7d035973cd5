/**
 * `assign_images`: spreading a page's available images over its notes when
 * the notes do not say how many they carry.
 */
module Images {
  import opened LayoutTypes

  /** The images the "balance" strategy gives note `i` of `n`: an even share, the remainder to the first notes. */
  function BalanceShare(available: nat, n: nat, i: nat): nat
    requires n > 0
  {
    available / n + (if i < available % n then 1 else 0)
  }

  /** The image count of note `i` of `n` after the assignment. */
  function AssignedCount(strategy: string, available: nat, n: nat, i: nat, current: int): int
    requires i < n
  {
    if strategy == "balance" then IntMax(current, BalanceShare(available, n, i))
    else if strategy == "first" && i < available then IntMax(current, 1)
    else current
  }

  /** The notes once `assign_images` has run. */
  function Assigned(notes: seq<Note>, available: nat, strategy: string): (r: seq<Note>)
    ensures |r| == |notes|
    ensures forall i :: 0 <= i < |notes| ==>
      r[i] == notes[i].(imageCount := AssignedCount(strategy, available, |notes|, i, notes[i].imageCount))
  {
    seq(|notes|, i requires 0 <= i < |notes| =>
      notes[i].(imageCount := AssignedCount(strategy, available, |notes|, i, notes[i].imageCount)))
  }

  /** `assign_images(notes, available_images, strategy)`, updating the notes in place. */
  method AssignImages(notes: array<Note>, available: nat, strategy: string)
    modifies notes
    ensures notes[..] == Assigned(old(notes[..]), available, strategy)
  {
    ghost var original := notes[..];
    if notes.Length == 0 || strategy == "none" {
      return;
    }
    if strategy == "balance" {
      var perNote := available / notes.Length;
      var remainder := available % notes.Length;
      for i := 0 to notes.Length
        invariant forall k :: 0 <= k < i ==> notes[k] == Assigned(original, available, strategy)[k]
        invariant forall k :: i <= k < notes.Length ==> notes[k] == original[k]
      {
        var count := perNote + (if i < remainder then 1 else 0);
        notes[i] := notes[i].(imageCount := IntMax(notes[i].imageCount, count));
      }
      return;
    }
    if strategy == "first" {
      var i := 0;
      while i < notes.Length
        invariant 0 <= i <= notes.Length
        invariant forall k :: 0 <= k < i ==> notes[k] == Assigned(original, available, strategy)[k]
        invariant forall k :: i <= k < notes.Length ==> notes[k] == original[k]
      {
        if i < available {
          notes[i] := notes[i].(imageCount := IntMax(notes[i].imageCount, 1));
        } else {
          break;
        }
        i := i + 1;
      }
      assert forall k :: i <= k < notes.Length ==> Assigned(original, available, strategy)[k] == original[k];
    }
  }

  /** No note ever loses images, and nothing but the image count changes. */
  lemma AssignedOnlyAdds(notes: seq<Note>, available: nat, strategy: string, i: nat)
    requires i < |notes|
    ensures Assigned(notes, available, strategy)[i].imageCount >= notes[i].imageCount
    ensures Assigned(notes, available, strategy)[i].(imageCount := notes[i].imageCount) == notes[i]
  {
  }

  /** "none", and any strategy the planner does not know, leave the notes alone. */
  lemma OtherStrategiesChangeNothing(notes: seq<Note>, available: nat, strategy: string)
    requires strategy != "balance" && strategy != "first"
    ensures Assigned(notes, available, strategy) == notes
  {
  }

  /** "first": one image for each of the first notes while images last. */
  lemma FirstGivesOneEach(notes: seq<Note>, available: nat, i: nat)
    requires i < |notes|
    ensures i < available ==> Assigned(notes, available, "first")[i].HasImage()
    ensures i >= available ==> Assigned(notes, available, "first")[i] == notes[i]
  {
  }

  /** The sum of the balance shares of notes `0 .. k-1`. */
  function Shares(available: nat, n: nat, k: nat): nat
    requires n > 0 && k <= n
  {
    if k == 0 then 0 else Shares(available, n, k - 1) + BalanceShare(available, n, k - 1)
  }

  lemma {:induction false} SharesOfPrefix(available: nat, n: nat, k: nat)
    requires n > 0 && k <= n
    ensures Shares(available, n, k) == k * (available / n) + (if k < available % n then k else available % n)
  {
    if k > 0 {
      SharesOfPrefix(available, n, k - 1);
    }
  }

  /** "balance" hands out exactly the available images, shares differing by at most one. */
  lemma BalanceHandsOutAll(available: nat, n: nat)
    requires n > 0
    ensures Shares(available, n, n) == available
    ensures forall i, j :: 0 <= i < j < n ==> BalanceShare(available, n, j) <= BalanceShare(available, n, i) <= BalanceShare(available, n, j) + 1
  {
    SharesOfPrefix(available, n, n);
  }

  /** "balance": each note ends with at least its share. */
  lemma BalanceGivesShare(notes: seq<Note>, available: nat, i: nat)
    requires i < |notes|
    ensures Assigned(notes, available, "balance")[i].imageCount >= BalanceShare(available, |notes|, i)
  {
  }
}
