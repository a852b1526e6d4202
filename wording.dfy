/**
 * The announcement texts the three broker variants share: the join and leave
 * notices sent as the server user, and the "users online" count.
 */
module Wording {
  import opened Wrappers
  import opened Text
  import EventStream

  /** The display name join and leave notices are sent under. */
  const ServerUsername := "\U{1F4BB} Server Message"

  const NoticeOpening := "User '"
  const JoinedClosing := "' has joined the chat \U{1F4AC}"
  const LeftClosing := "' has left the chat \U{1F44B}"

  /** `User '%s' has joined the chat 💬`: the username, quoted, after a fixed six-character opening. */
  function JoinedText(username: string): (r: string)
    ensures |r| == |username| + 29
    ensures r[6..6 + |username|] == username
    ensures r[|r| - 1] == '\U{1F4AC}'
  {
    NoticeOpening + username + JoinedClosing
  }

  /** `User '%s' has left the chat 👋`: the same opening, a different closing. */
  function LeftText(username: string): (r: string)
    ensures |r| == |username| + 27
    ensures r[6..6 + |username|] == username
    ensures r[|r| - 1] == '\U{1F44B}'
  {
    NoticeOpening + username + LeftClosing
  }

  /** Each notice names exactly one user, and a join notice is never a leave notice. */
  lemma NoticeTextsDistinct(a: string, b: string)
    ensures JoinedText(a) == JoinedText(b) ==> a == b
    ensures LeftText(a) == LeftText(b) ==> a == b
    ensures JoinedText(a) != LeftText(b)
  {
    var ja, jb, la, lb := JoinedText(a), JoinedText(b), LeftText(a), LeftText(b);
    if ja == jb {
      assert a == ja[6..6 + |a|] == jb[6..6 + |b|] == b;
    }
    if la == lb {
      assert a == la[6..6 + |a|] == lb[6..6 + |b|] == b;
    }
  }

  const OnlinePrefix := "There are "
  const OnlineSuffix := " users online"

  /** `There are %d users online` */
  function UsersOnlineText(count: nat): (r: string)
    ensures EventStream.NoLineBreak(r)
  {
    var digits := Decimal(count);
    assert forall i :: 0 <= i < |digits| ==> IsDigit(digits[i]);
    OnlinePrefix + digits + OnlineSuffix
  }

  /** Reads the count back out of a "users online" text, if it is one. */
  function ReadUsersOnline(text: string): (r: Option<nat>)
  {
    var p, q := |OnlinePrefix|, |OnlineSuffix|;
    if |text| < p + q || text[..p] != OnlinePrefix || text[|text| - q..] != OnlineSuffix then None
    else
      var digits := text[p..|text| - q];
      if digits != [] && forall i :: 0 <= i < |digits| ==> IsDigit(digits[i])
      then Some(ParseDecimal(digits))
      else None
  }

  /** The count message carries exactly the count it was built from. */
  lemma ReadUsersOnlineText(count: nat)
    ensures ReadUsersOnline(UsersOnlineText(count)) == Some(count)
  {
    var digits := Decimal(count);
    var text := UsersOnlineText(count);
    assert text[..|OnlinePrefix|] == OnlinePrefix;
    assert text[|text| - |OnlineSuffix|..] == OnlineSuffix;
    assert text[|OnlinePrefix|..|text| - |OnlineSuffix|] == digits;
    ParseDecimalOfDecimal(count);
  }

  /** Notices about a username that stays on one line stay on one line. */
  lemma NoticesHaveNoLineBreak(username: string)
    requires EventStream.NoLineBreak(username)
    ensures EventStream.NoLineBreak(JoinedText(username))
    ensures EventStream.NoLineBreak(LeftText(username))
  {
    assert EventStream.NoLineBreak(NoticeOpening);
    assert EventStream.NoLineBreak(JoinedClosing);
    assert EventStream.NoLineBreak(LeftClosing);
  }
}
