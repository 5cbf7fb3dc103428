/** The fixed drawing table of baccarat and the table's default settings. */
module BaccaratRules {

  datatype Settings = Settings(bankerCommission: real, tiePayout: real, numDecks: nat, penetration: real)

  /** Five per cent commission on banker wins, ties paid 8 to 1, eight decks dealt to 80%. */
  const DefaultSettings := Settings(0.05, 8.0, 8, 0.80)

  /** The player side draws on a total of 5 or less. */
  predicate PlayerDraws(playerValue: int) {
    playerValue <= 5
  }

  /**
   * Whether the banker draws.  When the player side stood the banker draws
   * on 5 or less; otherwise the banker's total and the player's third card
   * decide it.
   */
  predicate BankerDraws(bankerValue: int, playerDrew: bool, playerThird: int) {
    if !playerDrew then bankerValue <= 5
    else if bankerValue <= 2 then true
    else if bankerValue == 3 then playerThird != 8
    else if bankerValue == 4 then 2 <= playerThird <= 7
    else if bankerValue == 5 then 4 <= playerThird <= 7
    else if bankerValue == 6 then 6 <= playerThird <= 7
    else false
  }

  /**
   * The drawing table, read by the banker's total: 0 to 2 always draw; 3
   * draws unless the player's third card is an 8; 4 draws on a third card
   * of 2 to 7, 5 on 4 to 7, 6 on 6 or 7 (and only if the player drew); 7 and
   * above never draw.
   */
  lemma BankerTable(b: int, drew: bool, third: int)
    ensures b <= 2 ==> BankerDraws(b, drew, third)
    ensures b >= 7 ==> !BankerDraws(b, drew, third)
    ensures b == 3 && drew ==> (BankerDraws(b, drew, third) <==> third != 8)
    ensures b == 4 && drew ==> (BankerDraws(b, drew, third) <==> third in {2, 3, 4, 5, 6, 7})
    ensures b == 5 && drew ==> (BankerDraws(b, drew, third) <==> third in {4, 5, 6, 7})
    ensures b == 6 ==> (BankerDraws(b, drew, third) <==> drew && third in {6, 7})
    ensures !drew ==> (BankerDraws(b, drew, third) <==> PlayerDraws(b))
  {
  }
}
