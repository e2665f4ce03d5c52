/**
 * The calls `main.c` makes into the ST7735 display library, recorded in the
 * order they are made. What they do to the panel belongs to that library and
 * is not modelled.
 */
module Display {
  import opened Types

  datatype DisplayCall =
    | St7735Init
    | ClearScreen(fill: Word)
    | SetPosition(x: nat, y: nat)
    | DrawString(format: string, arg: Word, color: Word)   // the text `sprintf(format, arg)` drawn in `color`; the size is not recorded
    | DrawLine(a: nat, b: nat, c: nat, d: nat, color: Word)
    | DrawRectangle(x0: nat, y0: nat, x1: nat, y1: nat, fill: Word)
    | UpdateScreen
}
