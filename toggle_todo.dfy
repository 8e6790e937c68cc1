/** The "toggle TODO" command (`toggleTODO`, src/main.ts): the batch of
    blocks it acts on, the mixed-selection rule, and the in-place update of
    every block that has a uuid. The editor calls that fetch the selection
    and the current block are the parameters of `ToggleTodo`; the editor's
    `updateBlock` is the assignment to the block's slot in the array. */
module ToggleTodo {
  import opened Wrappers
  import opened TodoMarker

  /** A block as the command sees it: its uuid, which may be missing, and
      its text. */
  datatype Block = Block(uuid: Option<string>, content: string)

  /** The guard `block?.uuid`: a missing uuid and the empty string are both
      falsy in JavaScript, so neither block is updated. */
  predicate HasUuid(b: Block) {
    b.uuid.Some? && b.uuid.value != ""
  }

  /** The batch: the selected blocks when more than one is selected,
      otherwise the current block alone. */
  function SelectBlocks(selected: Option<seq<Block>>, current: Block): (r: seq<Block>)
    ensures |r| > 0
    ensures selected.Some? && |selected.value| > 1 ==> r == selected.value
    ensures selected.None? || |selected.value| <= 1 ==> r == [current]
  {
    if selected.Some? && |selected.value| > 1 then selected.value else [current]
  }

  /** `blocksInDifferentStates`: some block of the batch (with or without a
      uuid) has a marker other than the first block's. */
  predicate InDifferentStates(blocks: seq<Block>) {
    |blocks| > 0 &&
    exists i :: 0 <= i < |blocks| &&
      ExtractTodoState(blocks[i].content) != ExtractTodoState(blocks[0].content)
  }

  /** One block after the loop body has run on it. */
  function ToggledBlock(b: Block, clear: bool): Block {
    if HasUuid(b) then b.(content := ToggleContent(b.content, clear)) else b
  }

  /** The batch after the command: every block is toggled on its own, under
      the one flag computed for the whole batch. */
  function Toggled(blocks: seq<Block>): seq<Block> {
    var clear := InDifferentStates(blocks);
    seq(|blocks|, i requires 0 <= i < |blocks| => ToggledBlock(blocks[i], clear))
  }

  /** `blocks.some(...)` over the batch, stopping at the first block whose
      marker differs from the first block's. */
  method BlocksInDifferentStates(a: array<Block>) returns (different: bool)
    ensures different == InDifferentStates(a[..])
  {
    different := false;
    if a.Length > 0 {
      var first := ExtractTodoState(a[0].content);
      var i := 0;
      while i < a.Length && !different
        invariant 0 <= i <= a.Length
        invariant different <==> exists k :: 0 <= k < i && ExtractTodoState(a[k].content) != first
      {
        different := ExtractTodoState(a[i].content) != first;
        i := i + 1;
      }
    }
  }

  /** The loop of `toggleTODO`: each block with a uuid gets the next marker
      (DONE's, i.e. none, for a mixed batch) in front of its stripped text;
      the other blocks are left as they are. */
  method ToggleBlocks(a: array<Block>)
    modifies a
    ensures a[..] == Toggled(old(a[..]))
  {
    var different := BlocksInDifferentStates(a);
    for i := 0 to a.Length
      invariant forall k :: 0 <= k < i ==> a[k] == ToggledBlock(old(a[k]), different)
      invariant forall k :: i <= k < a.Length ==> a[k] == old(a[k])
    {
      var block := a[i];
      if HasUuid(block) {
        var todoState := if different then "DONE" else ExtractTodoState(block.content);
        var strippedContent := StripMarker(block.content);
        a[i] := block.(content := NextTodoState(todoState).value + strippedContent);
      }
      assert a[i] == ToggledBlock(old(a[i]), different);
    }
    assert forall k :: 0 <= k < a.Length ==> a[..][k] == Toggled(old(a[..]))[k];
  }

  /** The whole command: pick the batch, toggle it, and give back the
      batch's blocks as the editor holds them afterwards. */
  method ToggleTodo(selected: Option<seq<Block>>, current: Block) returns (updated: seq<Block>)
    ensures updated == Toggled(SelectBlocks(selected, current))
  {
    var blocks := SelectBlocks(selected, current);
    var a := new Block[|blocks|](i requires 0 <= i < |blocks| => blocks[i]);
    assert a[..] == blocks;
    ToggleBlocks(a);
    updated := a[..];
  }

  /** The command touches each block only through its own slot: the batch
      keeps its length and its uuids, and a block without a uuid keeps its
      text. `HasUuid` follows JavaScript truthiness, so a block whose uuid is
      the empty string keeps its text too. */
  lemma ToggledFrame(blocks: seq<Block>)
    ensures |Toggled(blocks)| == |blocks|
    ensures forall i :: 0 <= i < |blocks| ==> Toggled(blocks)[i].uuid == blocks[i].uuid
    ensures forall i :: 0 <= i < |blocks| && !HasUuid(blocks[i]) ==> Toggled(blocks)[i] == blocks[i]
  {
  }

  /** A mixed batch is cleared: every block with a uuid loses its leading
      marker and the whitespace after it, and gets nothing in front of its
      text. */
  lemma MixedSelectionClears(blocks: seq<Block>)
    requires InDifferentStates(blocks)
    ensures forall i :: 0 <= i < |blocks| && HasUuid(blocks[i]) ==>
      Toggled(blocks)[i].content == StripMarker(blocks[i].content)
  {
    forall i | 0 <= i < |blocks| && HasUuid(blocks[i])
      ensures Toggled(blocks)[i].content == StripMarker(blocks[i].content)
    {
      ToggleAdvancesMarker(blocks[i].content, true);
    }
  }

  /** A uniform batch advances by the table: every block shares the first
      block's marker, and each block with a uuid gets that marker's
      successor in front of its stripped text. */
  lemma UniformSelectionAdvances(blocks: seq<Block>)
    requires |blocks| > 0 && !InDifferentStates(blocks)
    ensures forall i :: 0 <= i < |blocks| ==>
      ExtractTodoState(blocks[i].content) == ExtractTodoState(blocks[0].content)
    ensures forall i :: 0 <= i < |blocks| && HasUuid(blocks[i]) ==>
      Toggled(blocks)[i].content ==
        NextTodoState(ExtractTodoState(blocks[0].content)).value + StripMarker(blocks[i].content)
  {
  }

  /** A batch of two blocks with different markers is mixed, so both
      blocks are handled as if marked DONE. */
  lemma MixedPairClears(x: Block, y: Block)
    requires ExtractTodoState(x.content) != ExtractTodoState(y.content)
    ensures Toggled([x, y]) == [ToggledBlock(x, true), ToggledBlock(y, true)]
  {
    var pair := [x, y];
    assert ExtractTodoState(pair[1].content) != ExtractTodoState(pair[0].content);
    assert InDifferentStates(pair);
    var t := Toggled(pair);
    assert t[0] == ToggledBlock(x, true);
    assert t[1] == ToggledBlock(y, true);
  }

  /** A block without a uuid is not updated, yet its marker still takes part
      in the mixed-batch test: next to a block with another marker, on
      either side of it, it makes the toggle clear that block instead of
      advancing it. */
  lemma UuidlessBlockStillCounts(skipped: Block, b: Block)
    requires !HasUuid(skipped) && HasUuid(b)
    requires ExtractTodoState(skipped.content) != ExtractTodoState(b.content)
    ensures Toggled([skipped, b]) == [skipped, b.(content := StripMarker(b.content))]
    ensures Toggled([b, skipped]) == [b.(content := StripMarker(b.content)), skipped]
  {
    ToggleAdvancesMarker(b.content, true);
    MixedPairClears(skipped, b);
    MixedPairClears(b, skipped);
  }

  /** Every block of the batch has a uuid, no marker and no leading
      whitespace. */
  predicate Unmarked(blocks: seq<Block>) {
    forall i :: 0 <= i < |blocks| ==>
      HasUuid(blocks[i]) && ExtractTodoState(blocks[i].content) == ""
      && NoLeadingWhitespace(blocks[i].content)
  }

  /** The batch with `prefix` written in front of every block's text. */
  function Prefixed(blocks: seq<Block>, prefix: string): (r: seq<Block>)
    ensures |r| == |blocks|
  {
    seq(|blocks|, i requires 0 <= i < |blocks| => blocks[i].(content := prefix + blocks[i].content))
  }

  /** First toggle of an unmarked batch: every block gains `TODO `. */
  lemma {:induction false} ToggleUnmarked(blocks: seq<Block>)
    requires Unmarked(blocks)
    ensures Toggled(blocks) == Prefixed(blocks, "TODO ")
  {
    assert !InDifferentStates(blocks);
    var t := Toggled(blocks);
    forall i | 0 <= i < |blocks| ensures t[i] == Prefixed(blocks, "TODO ")[i] {
      ToggleContentCycle(blocks[i].content);
    }
  }

  /** Second toggle: every `TODO ` becomes `DONE `. */
  lemma {:induction false} ToggleTodoMarked(blocks: seq<Block>)
    requires Unmarked(blocks)
    ensures Toggled(Prefixed(blocks, "TODO ")) == Prefixed(blocks, "DONE ")
  {
    var p := Prefixed(blocks, "TODO ");
    forall i | 0 <= i < |p| ensures ExtractTodoState(p[i].content) == "TODO" {
      PrefixedMarker("TODO ", blocks[i].content);
    }
    assert !InDifferentStates(p);
    var t := Toggled(p);
    forall i | 0 <= i < |blocks| ensures t[i] == Prefixed(blocks, "DONE ")[i] {
      ToggleContentCycle(blocks[i].content);
    }
  }

  /** Third toggle: every `DONE ` is removed again. */
  lemma {:induction false} ToggleDoneMarked(blocks: seq<Block>)
    requires Unmarked(blocks)
    ensures Toggled(Prefixed(blocks, "DONE ")) == blocks
  {
    var p := Prefixed(blocks, "DONE ");
    forall i | 0 <= i < |p| ensures ExtractTodoState(p[i].content) == "DONE" {
      PrefixedMarker("DONE ", blocks[i].content);
    }
    assert !InDifferentStates(p);
    var t := Toggled(p);
    forall i | 0 <= i < |blocks| ensures t[i] == blocks[i] {
      ToggleContentCycle(blocks[i].content);
    }
  }

  /** Three toggles of a batch whose blocks all have a uuid, no marker and no
      leading whitespace pass through TODO and DONE and give the batch back.
      A single current block is the batch of one. */
  lemma {:induction false} ToggleThriceRestores(blocks: seq<Block>)
    requires Unmarked(blocks)
    ensures Toggled(blocks) == Prefixed(blocks, "TODO ")
    ensures Toggled(Toggled(blocks)) == Prefixed(blocks, "DONE ")
    ensures Toggled(Toggled(Toggled(blocks))) == blocks
  {
    ToggleUnmarked(blocks);
    ToggleTodoMarked(blocks);
    ToggleDoneMarked(blocks);
  }
}
