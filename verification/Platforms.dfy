/** The two MakerWorld sites (app/services/account_health.py). */
module Platforms {
  datatype Platform = Cn | Global
}
