/**
 * The fixed configuration of discord-bot_v2.py: the TimeSlot and EventType
 * enums, the BotConfiguration defaults (none of which the environment
 * overrides), and the literals the recovery scan looks for.
 */
module Config {

  import opened Strings

  /** A configured (hour, minute) of the day. */
  datatype TimeSlot = TimeSlot(hour: int, minute: int)

  const PollCreationSlot := TimeSlot(18, 0)
  const PollDeletionSlot := TimeSlot(0, 0)
  const BossNotificationSlot := TimeSlot(20, 30)
  const SiegeNotificationSlot := TimeSlot(14, 30)
  const WeeklyUpdateSlot := TimeSlot(0, 0)

  /** `weekly_update_day`: Monday. */
  const WeeklyUpdateDay := 0

  datatype EventType = Boss | Siege | Poll

  /** `"⬆️"`: an arrow followed by the emoji variation selector. */
  const Arrow := "⬆️"

  /** `notification_message`: eight arrows, `@everyone`, eight arrows. */
  const NotificationMessage := Arrow + Arrow + Arrow + Arrow + Arrow + Arrow + Arrow + Arrow + "@everyone"
                               + Arrow + Arrow + Arrow + Arrow + Arrow + Arrow + Arrow + Arrow

  /** The text of `boss_template` before its `{boss_links}` field. */
  const BossTemplateHead := BossPhrase + " du weekend (samedi et dimanche) à 21h00 (heure de Paris) - 15h00 (heure du Québec).\nMerci de venir 15 minutes avant l'événement.\n"

  /** The text of `siege_template` before its `{siege_links}` field. */
  const SiegeTemplateHead := SiegePhrase + " du donjon de la Grotte de Cristal le dimanche à 15h00 (heure de Paris) - 9h00 (heure du Québec).\nMerci de venir 15 minutes avant l'événement.\n"

  /** `boss_template.format(boss_links=links)`: the field is the template's last line. */
  function BossTemplate(links: string): (r: string)
    ensures IsPrefix(BossTemplateHead, r)
  {
    BossTemplateHead + links
  }

  /** `siege_template.format(siege_links=link)`. */
  function SiegeTemplate(link: string): (r: string)
    ensures IsPrefix(SiegeTemplateHead, r)
  {
    SiegeTemplateHead + link
  }

  const BossKeywords := ["boss", "samedi", "dimanche"]
  const SiegeKeywords := ["siège", "grotte", "cristal"]

  /** What recovery looks for: the notification marker and the leading phrase of each template. */
  const Marker := Arrow + Arrow + Arrow
  const BossPhrase := "Présence pour l'événement Boss"
  const SiegePhrase := "Présence pour le siège"
}
