/** The editor toolbar's character-limit indicator
    (src/components/campaigns/sequence/MessageToolbar.tsx). */
module MessageToolbar {
  import opened CampaignTypes

  /** `platformLimits`: the character limit of each platform. Twitter has the
      smallest limit and Reddit the largest. */
  function Limit(p: Platform): (n: int)
    ensures 280 <= n <= 10000
    ensures n == 280 <==> p == Twitter
    ensures n == 10000 <==> p == Reddit
  {
    match p
    case Instagram => 1000
    case Facebook => 2000
    case LinkedIn => 2000
    case Twitter => 280
    case WhatsApp => 4096
    case Telegram => 4096
    case Discord => 2000
    case Reddit => 10000
    case Pinterest => 1000
    case Nextdoor => 1000
    case Skool => 1000
    case Slack => 4000
    case TikTok => 1000
  }

  /** `isOverLimit`: the count strictly exceeds the platform's limit. So no
      message of at most 280 characters is ever over, and one of more than
      10000 is over on every platform. */
  function IsOverLimit(characterCount: int, p: Platform): (over: bool)
    ensures characterCount <= 280 ==> !over
    ensures characterCount > 10000 ==> over
    ensures over <==> characterCount >= Limit(p) + 1
  {
    characterCount > Limit(p)
  }

  /** The limit itself is allowed; one character more is over. Being over the
      limit is preserved by adding characters. */
  lemma LimitIsInclusive(p: Platform, count: int, more: int)
    requires more >= count
    ensures !IsOverLimit(Limit(p), p) && IsOverLimit(Limit(p) + 1, p)
    ensures IsOverLimit(count, p) ==> IsOverLimit(more, p)
  {
  }

  /** A message that fits Twitter fits every platform. */
  lemma TwitterIsStrictest(count: int, p: Platform)
    requires !IsOverLimit(count, Twitter)
    ensures !IsOverLimit(count, p)
  {
  }
}
