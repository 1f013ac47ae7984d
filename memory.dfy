/** The conversation memory: a window over the most recent question/answer turns. */
module Memory {

  /** One exchange: the user's question and the answer that was given. */
  datatype Turn = Turn(question: string, answer: string)

  /** The number of turns the assistant's memory keeps. */
  const MemoryWindowSize: nat := 5

  /** The last `k` turns of a history (all of it when it is shorter), oldest first. */
  function Window(history: seq<Turn>, k: nat): (window: seq<Turn>)
    ensures |window| == if |history| <= k then |history| else k
    ensures window == history[|history| - |window|..]
  {
    if |history| <= k then history else history[|history| - k..]
  }

  /** Windowing the window after one more turn is windowing the whole history after it: no turn comes back. */
  lemma WindowSlides(history: seq<Turn>, turn: Turn, k: nat)
    ensures Window(Window(history, k) + [turn], k) == Window(history + [turn], k)
  {
    var extended := history + [turn];
    if |history| < k {
      assert Window(history, k) == history;
    } else {
      var n := |history|;
      var w := history[n - k..];
      assert Window(history, k) == w;
      assert Window(w + [turn], k) == (w + [turn])[1..];
      assert Window(extended, k) == extended[n + 1 - k..];
      assert (w + [turn])[1..] == extended[n + 1 - k..];
    }
  }

  /** Eviction is first in, first out: below capacity the turn is appended, at capacity the oldest turn goes. */
  lemma WindowEvictsOldest(history: seq<Turn>, turn: Turn, k: nat)
    requires k > 0
    ensures |Window(history, k)| < k ==> Window(history + [turn], k) == Window(history, k) + [turn]
    ensures |Window(history, k)| == k ==> Window(history + [turn], k) == Window(history, k)[1..] + [turn]
  {
    WindowSlides(history, turn, k);
  }

  /**
   * `ConversationBufferWindowMemory(k=...)`: keeps the turns saved to it, of which only the last `k` are
   * ever read back. `saved` is every turn saved so far; `turns` is what the memory holds.
   */
  class WindowMemory {
    const k: nat
    var turns: seq<Turn>
    ghost var saved: seq<Turn>

    /** The memory holds exactly the `k` most recent turns ever saved, oldest first. */
    ghost predicate Valid()
      reads this
    {
      turns == Window(saved, k)
    }

    constructor (k: nat)
      ensures Valid()
      ensures this.k == k && saved == [] && turns == []
    {
      this.k := k;
      turns := [];
      saved := [];
    }

    /** `save_context`: record one more turn, evicting the oldest when the window is full. */
    method SaveContext(question: string, answer: string)
      requires Valid()
      modifies this
      ensures Valid()
      ensures saved == old(saved) + [Turn(question, answer)]
      ensures turns == Window(old(turns) + [Turn(question, answer)], k)
      ensures |turns| <= k
    {
      var turn := Turn(question, answer);
      WindowSlides(saved, turn, k);
      turns := turns + [turn];
      if |turns| > k {
        turns := turns[1..];
      }
      saved := saved + [turn];
    }
  }

  /** The assistant's memory as it is created at start-up: empty, with a window of five turns. */
  method NewSessionMemory() returns (memory: WindowMemory)
    ensures fresh(memory) && memory.Valid()
    ensures memory.k == MemoryWindowSize && memory.saved == [] && memory.turns == []
  {
    memory := new WindowMemory(MemoryWindowSize);
  }
}
