/**
 * The player's ledger (`src/player.rs`): a mailbox whose mail ids are their positions, and
 * an amount of money with an affordability test.
 */
module PlayerLedger {
  /** A mail; `id` is assigned when the mail is delivered. */
  datatype Mail = Mail(id: nat, author: string, message: string)

  /** A mail not delivered yet, with id 0. */
  function NewMail(author: string, message: string): (r: Mail)
    ensures r.id == 0 && GetAuthor(r) == author && GetMessage(r) == message
  {
    Mail(0, author, message)
  }

  /** The author of a mail: with its id and message it makes up the whole mail. */
  function GetAuthor(mail: Mail): (r: string)
    ensures Mail(mail.id, r, mail.message) == mail
  {
    mail.author
  }

  /** The message of a mail: with its id and author it makes up the whole mail. */
  function GetMessage(mail: Mail): (r: string)
    ensures Mail(mail.id, mail.author, r) == mail
  {
    mail.message
  }

  class Player {
    var mails: seq<Mail>
    var money: real

    /** Every mail's id is its position in the mailbox. */
    ghost predicate Valid()
      reads this
    {
      forall i | 0 <= i < |mails| :: mails[i].id == i
    }

    constructor ()
      ensures mails == [] && money == 0.0
      ensures Valid()
    {
      mails := [];
      money := 0.0;
    }

    /**
     * Adds exactly `value` to the money; the mailbox is untouched. Afterwards `w` is
     * affordable exactly when `w - value` was; an income of at least 0 keeps every
     * affordable amount affordable.
     */
    method Income(value: real)
      modifies this`money
      ensures money == old(money) + value
      ensures forall w :: CanBuy(w) <==> old(CanBuy(w - value))
      ensures value >= 0.0 ==> forall w :: old(CanBuy(w)) ==> CanBuy(w)
    {
      money := money + value;
    }

    /** The player can afford `value` exactly when the money covers it. */
    function CanBuy(value: real): (r: bool)
      reads this
      ensures r <==> value <= money
    {
      money >= value
    }

    /**
     * Delivers a mail: it is numbered with the current mailbox size and appended, so the
     * earlier mails and the money stay as they were and ids keep matching positions.
     */
    method AddMail(mail: Mail)
      requires Valid()
      modifies this`mails
      ensures mails == old(mails) + [mail.(id := |old(mails)|)]
      ensures mails[..|old(mails)|] == old(mails)
      ensures mails[|old(mails)|].author == mail.author && mails[|old(mails)|].message == mail.message
      ensures Valid()
    {
      var numbered := mail.(id := |mails|);
      mails := mails + [numbered];
    }

    /** The mailbox, oldest mail first; mail `i` carries id `i`. */
    function FetchMails(): (r: seq<Mail>)
      requires Valid()
      reads this
      ensures |r| == |mails|
      ensures forall i | 0 <= i < |r| :: r[i].id == i && r[i] == mails[i]
    {
      mails
    }
  }

  /** Mail ids in a valid mailbox are distinct, so an id names one mail. */
  lemma IdsAreUnique(player: Player, i: nat, j: nat)
    requires player.Valid()
    requires i < |player.mails| && j < |player.mails|
    requires player.mails[i].id == player.mails[j].id
    ensures i == j
  {
  }
}
