/** The grid routines of motor.js and its two dimensions. motor.js is not part of this model:
    the routines are kept abstract, as total functions the rest of the model is parameterised by,
    and nothing here assumes a particular collision, fusion, clearing or rotation algorithm. */
module Motor {

  /** A board (`tabuleiro[y][x]`) or a piece shape (`peca[y][x]`): rows of cell values, 0 = empty. */
  type Matrix = seq<seq<int>>

  datatype Routines = Routines(
    columns: nat,                                  // COLUNAS
    rows: nat,                                     // LINHAS
    blank: Matrix,                                 // criarMatriz(COLUNAS, LINHAS)
    collides: (Matrix, Matrix, int, int) -> bool,  // verificarColisao(tabuleiro, peca, {x, y})
    fuse: (Matrix, Matrix, int, int) -> Matrix,    // fundirPeca: the board once the piece is written in
    clearLines: Matrix -> (Matrix, int),           // limparLinhas: the compacted board and the rows removed
    rotate: (Matrix, int) -> Matrix)               // rodar(peca, direcao)
  {
    /** The spawn column `Math.floor(COLUNAS / 2) - 1`: the left one of the two middle columns. */
    function SpawnX(): (x: int)
      ensures 2 * (x + 1) <= columns < 2 * (x + 2)
    {
      columns / 2 - 1
    }
  }
}
