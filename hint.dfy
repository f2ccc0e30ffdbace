/** Hint (sudoku/Hint.java): the text, elements and values a strategy hands to the user. */
module Hints {
  import opened Values
  import opened SuDokuGrid

  class Hint {
    /** The strategy name the hint was created with; the text always starts with it. */
    ghost const name: string
    /** The StringBuffer's contents. */
    var text: string
    var elements: seq<Element>
    var values: set<Value>

    /** The text starts with the strategy name followed by a colon and a space. */
    ghost predicate Valid()
      reads this
    {
      name + ": " <= text
    }

    /** Hint(strategyName) (sudoku/Hint.java:21-26). */
    constructor (strategyName: string)
      ensures name == strategyName && Valid()
      ensures text == strategyName + ": " && elements == [] && values == {}
    {
      name := strategyName;
      text := strategyName + ": ";
      elements := [];
      values := {};
    }

    /** addText (sudoku/Hint.java:36-39): appends, so the strategy name stays in front. */
    method AddText(t: string)
      requires Valid()
      modifies this`text
      ensures Valid()
      ensures text == old(text) + t
    {
      text := text + t;
    }

    /** addValue (sudoku/Hint.java:44-47): set semantics, so adding a value twice changes nothing. */
    method AddValue(x: Value)
      modifies this`values
      ensures values == old(values) + {x}
    {
      values := values + {x};
    }

    /**
     * addElement(CellGroup) and addElement(Cell) (sudoku/Hint.java:52-63): list
     * semantics, keeping insertion order and duplicates.
     */
    method AddElement(e: Element)
      modifies this`elements
      ensures elements == old(elements) + [e]
    {
      elements := elements + [e];
    }
  }
}
