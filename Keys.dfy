/**
 * The keypad: the eighteen keys rc_add_buttons places with rc_add_button's
 * layout cursor, and rc_get_current_button's first-match lookup by position.
 */
module Keys {
  import opened Options

  /** SCREEN_WIDTH, SIZE_BUTTON_X/Y, POSITION_BUTTONS_X/Y and ARRAY_SIZE_BUTTONS. */
  const ScreenWidth: int := 144
  const ButtonSize: int := 22
  const GridX: int := 10
  const GridY: int := 60
  const MaxButtons: int := 32
  /** Six keys fit in a row of the screen; the keypad has three rows. */
  const Columns: int := 6
  const Rows: int := 3
  const KeyCount: int := 18

  datatype ArithOp = Add | Sub | Mul | Div

  type DigitValue = d: int | 0 <= d <= 9

  /** A key's type and value: a number key with its digit, or one of the function keys. */
  datatype Key = Digit(d: DigitValue) | Op(op: ArithOp) | Equals | Clear | Back | Dot

  /** The label drawn on a key; for digits and operators it is also what the displays copy. */
  function Label(k: Key): string
  {
    match k
    case Digit(d) => [('0' as int + d) as char]
    case Op(Add) => "+"
    case Op(Sub) => "-"
    case Op(Mul) => "*"
    case Op(Div) => "/"
    case Equals => "="
    case Clear => "C"
    case Back => "<-"
    case Dot => "."
  }

  datatype Button = Button(top: int, left: int, key: Key)

  /** The keys in the order rc_add_buttons adds them, row by row. */
  const KeyTable: seq<Key> := [
    Digit(7), Digit(8), Digit(9), Op(Div), Op(Mul), Op(Sub),
    Digit(4), Digit(5), Digit(6), Clear, Back, Op(Add),
    Digit(1), Digit(2), Digit(3), Digit(0), Dot, Equals
  ]

  /** Where the i-th added button lands: column i mod 6, row i div 6. */
  function GridLeft(i: nat): int { GridX + ButtonSize * (i % Columns) }
  function GridTop(i: nat): int { GridY + ButtonSize * (i / Columns) }

  /** The keypad as laid out: key i of the table at grid place i. */
  function Layout(): (l: seq<Button>)
    ensures |l| == KeyCount
  {
    seq(KeyCount, i requires 0 <= i < KeyCount => Button(GridTop(i), GridLeft(i), KeyTable[i]))
  }

  /** The positions the cursor may take: the top-left corners of the 6 x 3 grid. */
  predicate OnGrid(x: int, y: int)
  {
    GridX <= x <= GridX + ButtonSize * (Columns - 1) && (x - GridX) % ButtonSize == 0
    && GridY <= y <= GridY + ButtonSize * (Rows - 1) && (y - GridY) % ButtonSize == 0
  }

  predicate At(b: Button, x: int, y: int) { b.top == y && b.left == x }

  /** The grid place of an on-grid position. */
  function GridIndex(x: int, y: int): (i: nat)
    requires OnGrid(x, y)
    ensures i < KeyCount && GridLeft(i) == x && GridTop(i) == y
  {
    var c := (x - GridX) / ButtonSize;
    var r := (y - GridY) / ButtonSize;
    PlaceOf(c, r);
    Columns * r + c
  }

  lemma PlaceOf(c: int, r: int)
    requires 0 <= c < Columns && 0 <= r
    ensures (Columns * r + c) % Columns == c && (Columns * r + c) / Columns == r
  {
  }

  /** Grid places are distinct: two places with one position are one place. */
  lemma GridInjective(i: nat, j: nat)
    requires GridLeft(i) == GridLeft(j) && GridTop(i) == GridTop(j)
    ensures i == j
  {
    assert i % Columns == j % Columns;
    assert i / Columns == j / Columns;
  }

  /**
   * Every on-grid position is the position of exactly one key of the
   * keypad, the one at its grid place; every key sits on the grid.
   */
  lemma LayoutCoversGrid(x: int, y: int)
    requires OnGrid(x, y)
    ensures forall i :: 0 <= i < KeyCount ==> (At(Layout()[i], x, y) <==> i == GridIndex(x, y))
  {
    var g := GridIndex(x, y);
    forall i | 0 <= i < KeyCount
      ensures At(Layout()[i], x, y) <==> i == g
    {
      if At(Layout()[i], x, y) {
        GridInjective(i, g);
      }
    }
  }

  lemma LayoutOnGrid(i: int)
    requires 0 <= i < KeyCount
    ensures OnGrid(Layout()[i].left, Layout()[i].top)
  {
    assert i / Columns < Rows;
  }

  /** From place k the layout cursor steps right, or back to the left edge of the next row. */
  lemma GridStep(k: nat)
    ensures GridLeft(k) + 2 * ButtonSize > ScreenWidth
            ==> GridLeft(k + 1) == GridX && GridTop(k + 1) == GridTop(k) + ButtonSize
    ensures GridLeft(k) + 2 * ButtonSize <= ScreenWidth
            ==> GridLeft(k + 1) == GridLeft(k) + ButtonSize && GridTop(k + 1) == GridTop(k)
  {
    var c, r := k % Columns, k / Columns;
    assert k == Columns * r + c;
    if c == Columns - 1 {
      PlaceOf(0, r + 1);
      assert k + 1 == Columns * (r + 1) + 0;
    } else {
      PlaceOf(c + 1, r);
      assert k + 1 == Columns * r + (c + 1);
    }
  }

  /** Adding the key at place k to the first k buttons of the keypad gives the first k + 1. */
  lemma LayoutPrefix(k: int)
    requires 0 <= k < KeyCount
    ensures Layout()[..k] + [Button(GridTop(k), GridLeft(k), KeyTable[k])] == Layout()[..k + 1]
  {
  }

  /** The button set: the buttons added so far and the layout cursor. */
  class ButtonSet {
    var buttons: seq<Button>
    var curX: int
    var curY: int

    /** The layout cursor is at the next grid place, within the button array's capacity. */
    ghost predicate Placed()
      reads this
    {
      |buttons| <= MaxButtons && curX == GridLeft(|buttons|) && curY == GridTop(|buttons|)
    }

    /** Besides, every button sits at its own grid place. */
    ghost predicate Valid()
      reads this
    {
      Placed()
      && forall i :: 0 <= i < |buttons| ==> buttons[i].left == GridLeft(i) && buttons[i].top == GridTop(i)
    }

    /** rc_create_buttonset: no buttons, the layout cursor at the grid's top-left corner. */
    constructor ()
      ensures Valid() && buttons == [] && curX == GridX && curY == GridY
    {
      buttons := [];
      curX := GridX;
      curY := GridY;
    }

    /** rc_add_button: place a button at the layout cursor, then step it right, wrapping at the screen edge. */
    method AddButton(key: Key)
      requires Placed() && |buttons| < MaxButtons
      modifies this
      ensures Placed() && (old(Valid()) ==> Valid())
      ensures buttons == old(buttons) + [Button(old(curY), old(curX), key)]
      ensures old(curX) + 2 * ButtonSize > ScreenWidth ==> curX == GridX && curY == old(curY) + ButtonSize
      ensures old(curX) + 2 * ButtonSize <= ScreenWidth ==> curX == old(curX) + ButtonSize && curY == old(curY)
    {
      GridStep(|buttons|);
      buttons := buttons + [Button(curY, curX, key)];
      curX := curX + ButtonSize;
      if curX + ButtonSize > ScreenWidth {
        curX := GridX;
        curY := curY + ButtonSize;
      }
    }

    /** rc_add_buttons: the eighteen keys in table order, row by row. */
    method AddKeypad()
      requires Valid() && buttons == []
      modifies this
      ensures Valid() && buttons == Layout()
    {
      AddTopRow();
      AddMiddleRow();
      AddBottomRow();
      assert Layout()[..KeyCount] == Layout();
    }

    /** The top row of rc_add_buttons: 7 8 9 / * -. */
    method AddTopRow()
      requires Placed() && buttons == []
      modifies this
      ensures Placed() && buttons == Layout()[..6]
    {
      assert buttons == Layout()[..0];
      AddKey(0, Digit(7));
      AddKey(1, Digit(8));
      AddKey(2, Digit(9));
      AddKey(3, Op(Div));
      AddKey(4, Op(Mul));
      AddKey(5, Op(Sub));
    }

    /** The middle row of rc_add_buttons: 4 5 6 C <- +. */
    method AddMiddleRow()
      requires Placed() && buttons == Layout()[..6]
      modifies this
      ensures Placed() && buttons == Layout()[..12]
    {
      AddKey(6, Digit(4));
      AddKey(7, Digit(5));
      AddKey(8, Digit(6));
      AddKey(9, Clear);
      AddKey(10, Back);
      AddKey(11, Op(Add));
    }

    /** The bottom row of rc_add_buttons: 1 2 3 0 . =. */
    method AddBottomRow()
      requires Placed() && buttons == Layout()[..12]
      modifies this
      ensures Placed() && buttons == Layout()[..18]
    {
      AddKey(12, Digit(1));
      AddKey(13, Digit(2));
      AddKey(14, Digit(3));
      AddKey(15, Digit(0));
      AddKey(16, Dot);
      AddKey(17, Equals);
    }

    /** Adding the key of grid place k to the first k buttons of the keypad. */
    method AddKey(k: int, key: Key)
      requires Placed() && 0 <= k < KeyCount && buttons == Layout()[..k] && key == KeyTable[k]
      modifies this
      ensures Placed() && buttons == Layout()[..k + 1]
    {
      LayoutPrefix(k);
      AddButton(key);
    }

    /** rc_get_current_button: the first button whose corner is (x, y), if any. */
    method Lookup(x: int, y: int) returns (r: Option<Button>)
      ensures r.None? ==> forall i :: 0 <= i < |buttons| ==> !At(buttons[i], x, y)
      ensures r.Some? ==> exists i :: 0 <= i < |buttons| && buttons[i] == r.value && At(r.value, x, y)
                                      && forall j :: 0 <= j < i ==> !At(buttons[j], x, y)
    {
      for i := 0 to |buttons|
        invariant forall j :: 0 <= j < i ==> !At(buttons[j], x, y)
      {
        if buttons[i].top == y && buttons[i].left == x {
          return Some(buttons[i]);
        }
      }
      return None;
    }
  }

  /** On the keypad, every on-grid position finds the key at its grid place. */
  lemma LookupOnKeypad(bs: seq<Button>, x: int, y: int, r: Option<Button>)
    requires bs == Layout() && OnGrid(x, y)
    requires r.None? ==> forall i :: 0 <= i < |bs| ==> !At(bs[i], x, y)
    requires r.Some? ==> exists i :: 0 <= i < |bs| && bs[i] == r.value && At(r.value, x, y)
    ensures r == Some(Layout()[GridIndex(x, y)])
  {
    LayoutCoversGrid(x, y);
  }
}
