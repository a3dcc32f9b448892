/** The theme identifiers the application offers. */
module Themes {

  datatype Theme = Modern | Vintage | Minimal | Nature
}
