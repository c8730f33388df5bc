/** The account that owns birthdays, categories and notification settings, reduced to its id. */
module Users {
  type UserId = int
}
