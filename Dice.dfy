/** One betting round's environment: the dice roll, the win test and the payout. */
module Dice {
  import opened Grid

  /** The values RollDice can return: random.Next(10, 101) draws from 10..100. */
  type Roll = r: int | 10 <= r <= 100 witness 10

  /** The win test: the roll's units digit equals its tens digit. On 10..100
      Dafny's `/` and `%` agree with C#'s, since the roll is never negative. */
  function CheckWin(roll: Roll): bool {
    roll % 10 == roll / 10 % 10
  }

  /** Over the whole roll range the winners are the doubles 11..99 and 100. */
  lemma WinningRolls(roll: Roll)
    ensures CheckWin(roll) <==> roll in {11, 22, 33, 44, 55, 66, 77, 88, 99, 100}
  {
    var tens, units := roll / 10, roll % 10;
    assert roll == 10 * tens + units;
    if tens == 10 {
      assert roll == 100;
    } else {
      assert tens % 10 == tens;
      assert CheckWin(roll) <==> units == tens;
    }
  }

  /** Whether the round pays out: bets of 10 and 20 win whatever the roll. */
  predicate Wins(bet: int, roll: Roll) {
    CheckWin(roll) || (10 <= bet <= 20)
  }

  /** The balance after one round: the bet is taken, and ten times the bet is
      credited on a win, each step in wrapping 32-bit arithmetic. */
  function Settle(balance: int, bet: int, roll: Roll): (r: int)
    ensures InInt32(r)
  {
    var afterStake := Wrap32(balance - bet);
    if Wins(bet, roll) then Wrap32(afterStake + Wrap32(bet * 10)) else afterStake
  }

  /** The settled balance is a 32-bit value; away from overflow it is the
      balance plus nine bets on a win and minus one bet on a loss. */
  lemma SettleFacts(balance: int, bet: int, roll: Roll)
    ensures InInt32(Settle(balance, bet, roll))
    ensures -0x100_0000 <= balance <= 0x100_0000 && -0x100_0000 <= bet <= 0x100_0000 ==>
              Settle(balance, bet, roll) == if Wins(bet, roll) then balance + 9 * bet else balance - bet
  {
  }

  /** A bet of 10 or 20 always gains nine times the bet. */
  lemma SmallBetsAlwaysWin(balance: int, bet: int, roll: Roll)
    requires 0 < balance < MaxBalanceKey && 10 <= bet <= 20
    ensures Settle(balance, bet, roll) == balance + 9 * bet
  {
  }
}
