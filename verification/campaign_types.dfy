/** The records of the linear campaign editor (src/components/campaigns/sequence/types.ts). */
module CampaignTypes {
  import opened Options

  /** The thirteen messaging surfaces, in their capitalised spelling. */
  datatype Platform =
    | Instagram | Facebook | LinkedIn | Twitter | WhatsApp | Telegram | Discord
    | Reddit | Pinterest | Nextdoor | Skool | Slack | TikTok

  /** The string a platform is stored and displayed as. */
  function PlatformName(p: Platform): string {
    match p
    case Instagram => "Instagram"
    case Facebook => "Facebook"
    case LinkedIn => "LinkedIn"
    case Twitter => "Twitter"
    case WhatsApp => "WhatsApp"
    case Telegram => "Telegram"
    case Discord => "Discord"
    case Reddit => "Reddit"
    case Pinterest => "Pinterest"
    case Nextdoor => "Nextdoor"
    case Skool => "Skool"
    case Slack => "Slack"
    case TikTok => "TikTok"
  }

  /** The kind of a sequence step. */
  datatype ActionType = MessageAction | WaitAction

  /** One alternative wording of a message step, with its relative send weight. */
  datatype Variant = Variant(id: string, content: string, weight: int)

  /** One step of a campaign sequence. `platform` and `variants` are the
      optional fields of the record. */
  datatype Message = Message(
    id: string,
    kind: ActionType,
    content: string,
    delay: int,
    platform: Option<Platform>,
    variants: Option<seq<Variant>>)

  /** A saved, reusable message; the timestamps are ISO-8601 strings. */
  datatype MessageTemplate = MessageTemplate(
    id: string,
    name: string,
    content: string,
    platform: Platform,
    tags: seq<string>,
    createdAt: string,
    updatedAt: string)
}
